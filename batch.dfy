/**
  The conversion loop: for each file the glob yields, load it, select its record,
  find the audio, work out where the wave file goes, ask before overwriting, and
  write it.

  The outside world enters as values: the files and what `loadmat` makes of each,
  the set of paths that already exist, and the replies typed at the prompt, one
  per prompt. The run produces the writes it performs, in order, and why it
  stopped.
 */
module Batch {
  import opened Optional
  import opened Paths
  import opened FileNameFormat
  import opened MatRecord
  import opened OverwritePrompt

  /** The user-editable settings at the top of the script. The glob pattern
      `matPath` is not here: the files it yields are the batch's input. */
  datatype Settings = Settings(
    wavPath: string,
    wavFnFormat: string,
    forceBitrate: Option<int>,
    compress: bool,
    ffInputBitdepth: string)

  /** A file the glob yielded, with what `loadmat` reads from it (None when it raises). */
  datatype Source = Source(path: string, contents: Option<MatContents>)

  /** Which writer produces the output: scipy's wave writer, or ffmpeg fed raw
      samples in the given input format. */
  datatype Encoder = WavWriter | Ffmpeg(inputFormat: string)

  datatype WriteAction = WriteAction(dest: PurePath, rate: int, samples: seq<Sample>, encoder: Encoder)

  /** Why a run ends early. The first four are the script's assertion failures and
      exceptions on a file; the last is the console reaching end of input at a prompt. */
  datatype Failure =
    | Unreadable(file: string)
    | RecordCount(file: string, count: nat)
    | MissingAudio(file: string)
    | BadTemplate(file: string)
    | NoReply(file: string)

  datatype Stop = Exhausted | QuitRequested | Abort(failure: Failure)

  /** The writes performed in order, why the run stopped, and the state it left:
      the paths that exist, the replies not yet read, and the `overwriteAll` flag. */
  datatype Outcome = Outcome(
    writes: seq<WriteAction>,
    stop: Stop,
    existing: set<PurePath>,
    replies: seq<string>,
    overwriteAll: bool)

  function EncoderOf(s: Settings): Encoder {
    if s.compress then Ffmpeg(s.ffInputBitdepth) else WavWriter
  }

  // ---------------------------------------------------------------------------
  // Where the output goes.

  /** `wavPath or matPath.parent` */
  function OutputDir(s: Settings, src: PurePath): PurePath {
    if s.wavPath != "" then Parse(s.wavPath) else Parent(src)
  }

  /** `PurePath('/').joinpath(wavPath or matPath.parent, wavFnFormat.format(fileName=matPath.stem))`,
      or None when the template fails to format. */
  function Destination(s: Settings, matFilename: string): (r: Option<PurePath>)
    ensures r.Some? <==> Format(s.wavFnFormat, Stem(Name(Parse(matFilename)))).Some?
    ensures r.Some? ==> r.value.absolute && Canonical(r.value)
  {
    var src := Parse(matFilename);
    match Format(s.wavFnFormat, Stem(Name(src)))
    case None => None
    case Some(name) => Some(Join(Join(Root, OutputDir(s, src)), Parse(name)))
  }

  /** When the filled-in template is a plain file name, the destination is that
      name inside the output directory, anchored at the root: next to the source
      when `wavPath` is empty, inside `wavPath` otherwise. */
  lemma DestinationShape(s: Settings, matFilename: string, name: string)
    requires Format(s.wavFnFormat, Stem(Name(Parse(matFilename)))) == Some(name)
    requires IsComponent(name)
    ensures Destination(s, matFilename) == Some(PurePath(true, OutputDir(s, Parse(matFilename)).parts + [name]))
    ensures s.wavPath == "" ==> Parent(Destination(s, matFilename).value).parts == Parent(Parse(matFilename)).parts
    ensures s.wavPath != "" ==> Parent(Destination(s, matFilename).value).parts == Parse(s.wavPath).parts
    ensures Name(Destination(s, matFilename).value) == name
  {
    SplitNoSeparator(name);
    assert name[0] != '/';
    assert Parse(name) == PurePath(false, [name]);
    var dir := OutputDir(s, Parse(matFilename));
    assert Join(Root, dir) == PurePath(true, dir.parts);
    assert (dir.parts + [name])[..|dir.parts|] == dir.parts;
  }

  /** The settings as the script ships them: no `wavPath` and the template
      '{fileName}.wav'. A source '<dir>/<base>.mat' is converted to
      '<dir>/<base>.wav' ('/data/JPN_P1_02.mat' to '/data/JPN_P1_02.wav'). Since
      the result is joined under the root, a relative source directory ends up
      under '/', not under the working directory: 'JPN_P1_02.mat' goes to
      '/JPN_P1_02.wav'. */
  lemma DefaultDestination(forceBitrate: Option<int>, compress: bool, ffInputBitdepth: string, src: PurePath, base: string)
    requires Canonical(src) && src.parts != []
    requires base != "" && Name(src) == base + ".mat"
    ensures Destination(Settings("", "{fileName}.wav", forceBitrate, compress, ffInputBitdepth), Text(src))
         == Some(PurePath(true, Parent(src).parts + [base + ".wav"]))
  {
    var s := Settings("", "{fileName}.wav", forceBitrate, compress, ffInputBitdepth);
    ParseText(src);
    MatToWav(Name(src), base);
    FormatWavTemplate(base);
    DestinationShape(s, Text(src), base + ".wav");
  }

  /** A component '<base>.mat' has stem '<base>', and '<base>.wav' is a component too. */
  lemma MatToWav(name: string, base: string)
    requires IsComponent(name) && base != "" && name == base + ".mat"
    ensures Stem(name) == base
    ensures IsComponent(base + ".wav")
  {
    StemOfExtension(base, "mat");
    assert base + "." + "mat" == base + ".mat";
    var wav := base + ".wav";
    assert forall i :: 0 <= i < |base| ==> wav[i] == name[i];
    assert |wav| >= 5;
  }

  // ---------------------------------------------------------------------------
  // One file, up to the overwrite prompt.

  /** Load, select the record, find the audio and resolve the destination: the
      write this file calls for, or the failure that ends the run on it. */
  function Prepare(s: Settings, f: Source): (r: Result<WriteAction, Failure>)
    ensures r.Ok? ==> Destination(s, f.path) == Some(r.value.dest)
    ensures r.Ok? ==> r.value.dest.absolute && r.value.encoder == EncoderOf(s)
    ensures r.Ok? && Overrides(s.forceBitrate) ==> r.value.rate == s.forceBitrate.value
    ensures r.Err? ==> r.error.file == f.path && !r.error.NoReply?
  {
    if f.contents.None? then Err(Unreadable(f.path))
    else
      match SelectRecord(f.contents.value)
      case Err(n) => Err(RecordCount(f.path, n))
      case Ok(rec) =>
        match ExtractAudio(rec, s.forceBitrate)
        case None => Err(MissingAudio(f.path))
        case Some(audio) =>
          match Destination(s, f.path)
          case None => Err(BadTemplate(f.path))
          case Some(dest) => Ok(WriteAction(dest, audio.rate, audio.samples, EncoderOf(s)))
  }

  /** Which failure ends the run on a file, checked in the script's order: the
      file does not load, it has no single record, the record has no 'AUDIO'
      sub-field, or the template cannot be filled in. */
  lemma PrepareFailures(s: Settings, f: Source)
    ensures f.contents.None? ==> Prepare(s, f) == Err(Unreadable(f.path))
    ensures f.contents.Some? && |RecordKeys(f.contents.value)| != 1 ==>
              Prepare(s, f) == Err(RecordCount(f.path, |RecordKeys(f.contents.value)|))
    ensures f.contents.Some? && |RecordKeys(f.contents.value)| == 1 ==>
              forall k :: k in RecordKeys(f.contents.value) ==>
                (FirstAudio(f.contents.value[k]).None? ==> Prepare(s, f) == Err(MissingAudio(f.path)))
    ensures f.contents.Some? && SelectRecord(f.contents.value).Ok? &&
            ExtractAudio(SelectRecord(f.contents.value).value, s.forceBitrate).Some? ==>
              (Prepare(s, f) == Err(BadTemplate(f.path)) <==> Destination(s, f.path).None?)
  {
  }

  /** A file is written from the first 'AUDIO' sub-field of its one record. */
  lemma PrepareUsesFirstAudio(s: Settings, f: Source)
    requires Prepare(s, f).Ok?
    ensures f.contents.Some? && |RecordKeys(f.contents.value)| == 1
    ensures forall k :: k in RecordKeys(f.contents.value) ==>
              var rec := f.contents.value[k];
              FirstAudio(rec).Some? &&
              Prepare(s, f).value.samples == rec[FirstAudio(rec).value].samples &&
              (!Overrides(s.forceBitrate) ==> Prepare(s, f).value.rate == rec[FirstAudio(rec).value].rate)
  {
  }

  // ---------------------------------------------------------------------------
  // The whole batch.

  /** A file's path together with what preparing it gives. A file's contents
      are those `loadmat` sees when the loop reaches it, so preparing it needs
      nothing else from the loop's state, and the loop can be read as running
      the overwrite gate over the files' jobs, in order. */
  datatype Job = Job(path: string, prepared: Result<WriteAction, Failure>)

  function Jobs(s: Settings, files: seq<Source>): seq<Job> {
    seq(|files|, i requires 0 <= i < |files| => Job(files[i].path, Prepare(s, files[i])))
  }

  lemma JobAt(s: Settings, files: seq<Source>, i: nat)
    requires i < |files|
    ensures |Jobs(s, files)| == |files|
    ensures Jobs(s, files)[i] == Job(files[i].path, Prepare(s, files[i]))
  {
  }

  function Preceded(ws: seq<WriteAction>, o: Outcome): Outcome {
    o.(writes := ws + o.writes)
  }

  /** What the loop body does with one file: write it (with the replies left and
      the flag afterwards), skip it (`continue`), or end the run (`break`, or an
      assertion failure or exception). */
  datatype Step =
    | Written(w: WriteAction, rest: seq<string>, overwriteAll: bool)
    | Skipped(rest: seq<string>)
    | Halted(stop: Stop, rest: seq<string>)

  /** The loop body for one prepared file: a failed preparation ends the run;
      otherwise the overwrite gate decides. It prompts only when the destination
      exists and `overwriteAll` is unset, and a prompt reads exactly one reply. */
  function Gate(job: Job, existing: set<PurePath>, replies: seq<string>, overwriteAll: bool): Step {
    match job.prepared
    case Err(e) => Halted(Abort(e), replies)
    case Ok(w) =>
      if w.dest in existing && !overwriteAll then
        if replies == [] then Halted(Abort(NoReply(job.path)), replies)
        else
          match Decide(replies[0])
          case Yes => Written(w, replies[1..], overwriteAll)
          case All => Written(w, replies[1..], true)
          case Quit => Halted(QuitRequested, replies[1..])
          case Skip => Skipped(replies[1..])
      else
        Written(w, replies, overwriteAll)
  }

  /** The gate's transitions: a failed preparation ends the run; a destination
      that does not exist, or `overwriteAll`, means a write without a prompt;
      otherwise one reply is read and decides, and end of input aborts. A write
      is always the prepared one, the flag is never cleared, and only a prefix
      of the replies is consumed. */
  lemma GateTable(job: Job, existing: set<PurePath>, replies: seq<string>, overwriteAll: bool)
    ensures var g := Gate(job, existing, replies, overwriteAll);
      && (job.prepared.Err? ==> g == Halted(Abort(job.prepared.error), replies))
      && (job.prepared.Ok? && (job.prepared.value.dest !in existing || overwriteAll) ==>
            g == Written(job.prepared.value, replies, overwriteAll))
    ensures var g := Gate(job, existing, replies, overwriteAll);
      job.prepared.Ok? && job.prepared.value.dest in existing && !overwriteAll ==>
        && (replies == [] ==> g == Halted(Abort(NoReply(job.path)), []))
        && (replies != [] && Decide(replies[0]) == Yes ==> g == Written(job.prepared.value, replies[1..], false))
        && (replies != [] && Decide(replies[0]) == All ==> g == Written(job.prepared.value, replies[1..], true))
        && (replies != [] && Decide(replies[0]) == Quit ==> g == Halted(QuitRequested, replies[1..]))
        && (replies != [] && Decide(replies[0]) == Skip ==> g == Skipped(replies[1..]))
    ensures var g := Gate(job, existing, replies, overwriteAll);
      && (g.Written? ==> job.prepared == Ok(g.w) && (overwriteAll ==> g.overwriteAll))
      && (g.Skipped? ==> !overwriteAll)
      && (g.Halted? ==> g.stop != Exhausted)
      && |g.rest| <= |replies| && g.rest == replies[|replies| - |g.rest|..]
  {
  }

  /** The batch loop over the jobs, starting from the paths that exist, the
      replies still to be typed and the current `overwriteAll` flag. */
  function RunJobs(jobs: seq<Job>, existing: set<PurePath>, replies: seq<string>, overwriteAll: bool): Outcome
    decreases |jobs|
  {
    if jobs == [] then Outcome([], Exhausted, existing, replies, overwriteAll)
    else
      match Gate(jobs[0], existing, replies, overwriteAll)
      case Written(w, rest, all) => Preceded([w], RunJobs(jobs[1..], existing + {w.dest}, rest, all))
      case Skipped(rest) => RunJobs(jobs[1..], existing, rest, overwriteAll)
      case Halted(stop, rest) => Outcome([], stop, existing, rest, overwriteAll)
  }

  /** The script's run over the files the glob yielded. */
  function Run(s: Settings, files: seq<Source>, existing: set<PurePath>, replies: seq<string>): Outcome {
    RunJobs(Jobs(s, files), existing, replies, false)
  }

  function Dests(ws: seq<WriteAction>): set<PurePath> {
    if ws == [] then {} else {ws[0].dest} + Dests(ws[1..])
  }

  /** `overwriteAll`, once set, stays set for the rest of the run. */
  lemma {:induction false} RunKeepsOverwriteAll(jobs: seq<Job>, existing: set<PurePath>, replies: seq<string>)
    ensures RunJobs(jobs, existing, replies, true).overwriteAll
  {
    if jobs != [] {
      match Gate(jobs[0], existing, replies, true)
      case Written(w, rest, all) => RunKeepsOverwriteAll(jobs[1..], existing + {w.dest}, rest);
      case Skipped(rest) =>
      case Halted(_, _) =>
    }
  }

  /** The paths that exist after a run are those that existed before plus every
      destination written. */
  lemma {:induction false} RunExisting(jobs: seq<Job>, existing: set<PurePath>, replies: seq<string>, overwriteAll: bool)
    ensures var o := RunJobs(jobs, existing, replies, overwriteAll);
      o.existing == existing + Dests(o.writes)
  {
    if jobs != [] {
      match Gate(jobs[0], existing, replies, overwriteAll)
      case Written(w, rest, all) =>
        var r := RunJobs(jobs[1..], existing + {w.dest}, rest, all);
        RunExisting(jobs[1..], existing + {w.dest}, rest, all);
        assert ([w] + r.writes)[1..] == r.writes;
      case Skipped(rest) => RunExisting(jobs[1..], existing, rest, overwriteAll);
      case Halted(_, _) =>
    }
  }

  ghost predicate IsSuffix(a: seq<string>, b: seq<string>) {
    |a| <= |b| && a == b[|b| - |a|..]
  }

  lemma SuffixTrans(a: seq<string>, b: seq<string>, c: seq<string>)
    requires IsSuffix(a, b) && IsSuffix(b, c)
    ensures IsSuffix(a, c)
  {
    assert c[|c| - |b|..][|b| - |a|..] == c[|c| - |a|..];
  }

  lemma GateReadsPrefix(job: Job, existing: set<PurePath>, replies: seq<string>, overwriteAll: bool)
    ensures IsSuffix(Gate(job, existing, replies, overwriteAll).rest, replies)
  {
    match job.prepared
    case Err(_) =>
    case Ok(w) =>
      if w.dest in existing && !overwriteAll && replies != [] {
        var g := Gate(job, existing, replies, overwriteAll);
        assert g.rest == replies[1..];
        assert replies[1..] == replies[|replies| - |replies[1..]|..];
      }
  }

  /** The replies left after a run are a suffix of those given: each prompt reads
      the next reply, and none is read twice. */
  lemma {:induction false} RunConsumesReplies(jobs: seq<Job>, existing: set<PurePath>, replies: seq<string>, overwriteAll: bool)
    ensures IsSuffix(RunJobs(jobs, existing, replies, overwriteAll).replies, replies)
  {
    if jobs != [] {
      GateReadsPrefix(jobs[0], existing, replies, overwriteAll);
      match Gate(jobs[0], existing, replies, overwriteAll)
      case Written(w, rest, all) =>
        RunConsumesReplies(jobs[1..], existing + {w.dest}, rest, all);
        SuffixTrans(RunJobs(jobs[1..], existing + {w.dest}, rest, all).replies, rest, replies);
      case Skipped(rest) =>
        RunConsumesReplies(jobs[1..], existing, rest, overwriteAll);
        SuffixTrans(RunJobs(jobs[1..], existing, rest, overwriteAll).replies, rest, replies);
      case Halted(_, _) =>
    }
  }

  /** `idx` picks out, in increasing order, the jobs the writes come from. */
  ghost predicate Traces(jobs: seq<Job>, writes: seq<WriteAction>, idx: seq<nat>) {
    && |idx| == |writes|
    && (forall j :: 0 <= j < |idx| ==> idx[j] < |jobs| && jobs[idx[j]].prepared == Ok(writes[j]))
    && (forall j, k :: 0 <= j < k < |idx| ==> idx[j] < idx[k])
  }

  function Shift(xs: seq<nat>): (r: seq<nat>)
    ensures |r| == |xs| && forall j :: 0 <= j < |xs| ==> r[j] == xs[j] + 1
  {
    seq(|xs|, j requires 0 <= j < |xs| => xs[j] + 1)
  }

  lemma TracesTail(job: Job, jobs: seq<Job>, writes: seq<WriteAction>, idx: seq<nat>)
    requires Traces(jobs, writes, idx)
    ensures Traces([job] + jobs, writes, Shift(idx))
    ensures job.prepared.Ok? ==> Traces([job] + jobs, [job.prepared.value] + writes, [0] + Shift(idx))
  {
    var all := [job] + jobs;
    assert forall j :: 0 <= j < |idx| ==> all[Shift(idx)[j]] == jobs[idx[j]];
    if job.prepared.Ok? {
      var ws := [job.prepared.value] + writes;
      var ix := [0] + Shift(idx);
      forall j | 0 <= j < |ix|
        ensures ix[j] < |all| && all[ix[j]].prepared == Ok(ws[j])
      {
        if j > 0 {
          assert ix[j] == Shift(idx)[j - 1] && ws[j] == writes[j - 1];
        }
      }
    }
  }

  /** Every write is the one its job calls for, and the writes come in the order
      of the jobs, each job at most once: `idx[j]` is the position of the job
      behind the j-th write. */
  lemma {:induction false} RunJobsInOrder(jobs: seq<Job>, existing: set<PurePath>, replies: seq<string>, overwriteAll: bool)
    returns (idx: seq<nat>)
    ensures Traces(jobs, RunJobs(jobs, existing, replies, overwriteAll).writes, idx)
  {
    if jobs == [] {
      return [];
    }
    assert jobs == [jobs[0]] + jobs[1..];
    match Gate(jobs[0], existing, replies, overwriteAll)
    case Halted(_, _) =>
      idx := [];
    case Skipped(rest) =>
      var r := RunJobsInOrder(jobs[1..], existing, rest, overwriteAll);
      TracesTail(jobs[0], jobs[1..], RunJobs(jobs[1..], existing, rest, overwriteAll).writes, r);
      idx := Shift(r);
    case Written(w, rest, all) =>
      var r := RunJobsInOrder(jobs[1..], existing + {w.dest}, rest, all);
      TracesTail(jobs[0], jobs[1..], RunJobs(jobs[1..], existing + {w.dest}, rest, all).writes, r);
      idx := [0] + Shift(r);
  }

  /** Every write of a run over files is the one its source file calls for, and
      the files are written in the order the glob yields them, each at most once. */
  lemma RunWritesInOrder(s: Settings, files: seq<Source>, existing: set<PurePath>, replies: seq<string>)
    returns (idx: seq<nat>)
    ensures var o := Run(s, files, existing, replies);
      && |idx| == |o.writes|
      && (forall j :: 0 <= j < |idx| ==> idx[j] < |files| && Prepare(s, files[idx[j]]) == Ok(o.writes[j]))
      && (forall j, k :: 0 <= j < k < |idx| ==> idx[j] < idx[k])
  {
    idx := RunJobsInOrder(Jobs(s, files), existing, replies, false);
    assert forall j :: 0 <= j < |idx| ==> Jobs(s, files)[idx[j]].prepared == Prepare(s, files[idx[j]]);
  }

  /** With a sample-rate override set, every file of the run is written at that rate. */
  lemma RunOverrideRate(s: Settings, files: seq<Source>, existing: set<PurePath>, replies: seq<string>)
    requires Overrides(s.forceBitrate)
    ensures forall j :: 0 <= j < |Run(s, files, existing, replies).writes| ==>
              Run(s, files, existing, replies).writes[j].rate == s.forceBitrate.value
  {
    var idx := RunWritesInOrder(s, files, existing, replies);
  }

  /** Running two lists of jobs one after the other is running the first and,
      only if it ran to its end, carrying on with the second from the state it
      left. A quit or an abort in the first list therefore means that nothing of
      the second is ever looked at. */
  lemma {:induction false} RunAppend(pre: seq<Job>, post: seq<Job>, existing: set<PurePath>, replies: seq<string>, overwriteAll: bool)
    ensures var o := RunJobs(pre, existing, replies, overwriteAll);
      o.stop != Exhausted ==> RunJobs(pre + post, existing, replies, overwriteAll) == o
    ensures var o := RunJobs(pre, existing, replies, overwriteAll);
      o.stop == Exhausted ==>
        RunJobs(pre + post, existing, replies, overwriteAll)
        == Preceded(o.writes, RunJobs(post, o.existing, o.replies, o.overwriteAll))
  {
    if pre == [] {
      assert pre + post == post;
    } else {
      assert (pre + post)[0] == pre[0];
      assert (pre + post)[1..] == pre[1..] + post;
      match Gate(pre[0], existing, replies, overwriteAll)
      case Written(w, rest, all) =>
        RunAppend(pre[1..], post, existing + {w.dest}, rest, all);
        var o := RunJobs(pre[1..], existing + {w.dest}, rest, all);
        var tail := RunJobs(post, o.existing, o.replies, o.overwriteAll).writes;
        assert [w] + o.writes + tail == [w] + (o.writes + tail);
      case Skipped(rest) =>
        RunAppend(pre[1..], post, existing, rest, overwriteAll);
      case Halted(_, _) =>
    }
  }

  // ---------------------------------------------------------------------------
  // The overwrite gate, at any point of the batch.

  /** After the files before it ran to their end, a file is handled from the
      state they left. */
  lemma RunAt(pre: seq<Job>, job: Job, post: seq<Job>, existing: set<PurePath>, replies: seq<string>)
    requires RunJobs(pre, existing, replies, false).stop == Exhausted
    ensures var o := RunJobs(pre, existing, replies, false);
      RunJobs(pre + [job] + post, existing, replies, false)
      == Preceded(o.writes, RunJobs([job] + post, o.existing, o.replies, o.overwriteAll))
  {
    var tail := [job] + post;
    assert pre + [job] + post == pre + tail;
    RunAppend(pre, tail, existing, replies, false);
  }

  lemma PrecededTwice(a: seq<WriteAction>, b: seq<WriteAction>, o: Outcome)
    ensures Preceded(a, Preceded(b, o)) == Preceded(a + b, o)
    ensures Preceded([], o) == o
  {
    assert a + (b + o.writes) == a + b + o.writes;
    assert [] + o.writes == o.writes;
  }

  lemma RunCons(job: Job, post: seq<Job>, existing: set<PurePath>, replies: seq<string>, overwriteAll: bool)
    ensures var g := Gate(job, existing, replies, overwriteAll);
      var whole := RunJobs([job] + post, existing, replies, overwriteAll);
      && (g.Written? ==> whole == Preceded([g.w], RunJobs(post, existing + {g.w.dest}, g.rest, g.overwriteAll)))
      && (g.Skipped? ==> whole == RunJobs(post, existing, g.rest, overwriteAll))
      && (g.Halted? ==> whole == Outcome([], g.stop, existing, g.rest, overwriteAll))
  {
    assert ([job] + post)[0] == job && ([job] + post)[1..] == post;
  }

  /** A file whose destination does not exist, or that comes after an "all"
      reply, is written without a prompt and without reading a reply; the batch
      then carries on with the next file. */
  lemma NoPromptAt(pre: seq<Job>, job: Job, post: seq<Job>, existing: set<PurePath>, replies: seq<string>)
    requires RunJobs(pre, existing, replies, false).stop == Exhausted
    requires job.prepared.Ok?
    requires var o := RunJobs(pre, existing, replies, false);
      job.prepared.value.dest !in o.existing || o.overwriteAll
    ensures var o := RunJobs(pre, existing, replies, false);
      var w := job.prepared.value;
      RunJobs(pre + [job] + post, existing, replies, false)
      == Preceded(o.writes + [w], RunJobs(post, o.existing + {w.dest}, o.replies, o.overwriteAll))
  {
    var o := RunJobs(pre, existing, replies, false);
    var w := job.prepared.value;
    RunAt(pre, job, post, existing, replies);
    RunCons(job, post, o.existing, o.replies, o.overwriteAll);
    PrecededTwice(o.writes, [w], RunJobs(post, o.existing + {w.dest}, o.replies, o.overwriteAll));
  }

  /** A file whose destination exists, while `overwriteAll` is unset, prompts and
      takes exactly one reply: "y" writes it, "a" writes it and sets the flag for
      the rest of the run, "q" ends the run with nothing more written, and any
      other reply skips this file only and goes on with the next. Without a
      reply left the run aborts. */
  lemma PromptAt(pre: seq<Job>, job: Job, post: seq<Job>, existing: set<PurePath>, replies: seq<string>)
    requires RunJobs(pre, existing, replies, false).stop == Exhausted
    requires job.prepared.Ok?
    requires var o := RunJobs(pre, existing, replies, false);
      job.prepared.value.dest in o.existing && !o.overwriteAll
    ensures var o := RunJobs(pre, existing, replies, false);
      var w := job.prepared.value;
      var whole := RunJobs(pre + [job] + post, existing, replies, false);
      && (o.replies == [] ==> whole == Outcome(o.writes, Abort(NoReply(job.path)), o.existing, [], false))
      && (o.replies != [] && Decide(o.replies[0]) == Yes ==>
            whole == Preceded(o.writes + [w], RunJobs(post, o.existing, o.replies[1..], false)))
      && (o.replies != [] && Decide(o.replies[0]) == All ==>
            whole == Preceded(o.writes + [w], RunJobs(post, o.existing, o.replies[1..], true)))
      && (o.replies != [] && Decide(o.replies[0]) == Quit ==>
            whole == Outcome(o.writes, QuitRequested, o.existing, o.replies[1..], false))
      && (o.replies != [] && Decide(o.replies[0]) == Skip ==>
            whole == Preceded(o.writes, RunJobs(post, o.existing, o.replies[1..], false)))
  {
    var o := RunJobs(pre, existing, replies, false);
    var w := job.prepared.value;
    RunAt(pre, job, post, existing, replies);
    RunCons(job, post, o.existing, o.replies, false);
    assert o.existing + {w.dest} == o.existing;
    if o.replies != [] {
      match Decide(o.replies[0])
      case Yes => PrecededTwice(o.writes, [w], RunJobs(post, o.existing, o.replies[1..], false));
      case All => PrecededTwice(o.writes, [w], RunJobs(post, o.existing, o.replies[1..], true));
      case Quit => assert o.writes + [] == o.writes;
      case Skip =>
    }
  }

  /** A file that cannot be loaded, has no single record, has no 'AUDIO'
      sub-field or whose template fails ends the whole run: the files before it
      stay written and none after it is looked at. */
  lemma AbortAt(pre: seq<Job>, job: Job, post: seq<Job>, existing: set<PurePath>, replies: seq<string>)
    requires RunJobs(pre, existing, replies, false).stop == Exhausted
    requires job.prepared.Err?
    ensures var o := RunJobs(pre, existing, replies, false);
      RunJobs(pre + [job] + post, existing, replies, false)
      == Outcome(o.writes, Abort(job.prepared.error), o.existing, o.replies, o.overwriteAll)
  {
    RunAt(pre, job, post, existing, replies);
    RunCons(job, post, RunJobs(pre, existing, replies, false).existing,
            RunJobs(pre, existing, replies, false).replies, RunJobs(pre, existing, replies, false).overwriteAll);
    assert RunJobs(pre, existing, replies, false).writes + [] == RunJobs(pre, existing, replies, false).writes;
  }

  // ---------------------------------------------------------------------------
  // Whole runs without skips.

  ghost predicate AllReady(jobs: seq<Job>) {
    forall i :: 0 <= i < |jobs| ==> jobs[i].prepared.Ok?
  }

  /** The writes the jobs call for, in order. */
  function Actions(jobs: seq<Job>): (r: seq<WriteAction>)
    requires AllReady(jobs)
    ensures |r| == |jobs|
    ensures forall i :: 0 <= i < |jobs| ==> jobs[i].prepared == Ok(r[i])
  {
    if jobs == [] then [] else [jobs[0].prepared.value] + Actions(jobs[1..])
  }

  /** When every remaining file prepares and `overwriteAll` is set, each is
      written, in order, no reply is read, and the run goes to the end. */
  lemma {:induction false} RunOverwriteAll(jobs: seq<Job>, existing: set<PurePath>, replies: seq<string>)
    requires AllReady(jobs)
    ensures RunJobs(jobs, existing, replies, true)
         == Outcome(Actions(jobs), Exhausted, existing + Dests(Actions(jobs)), replies, true)
  {
    if jobs != [] {
      var w := jobs[0].prepared.value;
      RunOverwriteAll(jobs[1..], existing + {w.dest}, replies);
      var rest := Actions(jobs[1..]);
      assert Actions(jobs) == [w] + rest;
      assert ([w] + rest)[1..] == rest;
    }
  }

  /** The "a" reply: when every remaining file prepares, the file that prompted
      and every later one are written without another prompt, and only that one reply is read. */
  lemma AllReplyWritesRest(jobs: seq<Job>, existing: set<PurePath>, replies: seq<string>)
    requires AllReady(jobs) && jobs != []
    requires jobs[0].prepared.value.dest in existing
    requires replies != [] && Decide(replies[0]) == All
    ensures RunJobs(jobs, existing, replies, false)
         == Outcome(Actions(jobs), Exhausted, existing + Dests(Actions(jobs)), replies[1..], true)
  {
    var w := jobs[0].prepared.value;
    RunOverwriteAll(jobs[1..], existing + {w.dest}, replies[1..]);
    var rest := Actions(jobs[1..]);
    assert Actions(jobs) == [w] + rest;
    assert ([w] + rest)[1..] == rest;
  }

  /** No prepared destination exists already, and no two coincide. */
  ghost predicate NoCollisions(jobs: seq<Job>, existing: set<PurePath>)
    requires AllReady(jobs)
  {
    && (forall i :: 0 <= i < |jobs| ==> Actions(jobs)[i].dest !in existing)
    && (forall i, j :: 0 <= i < j < |jobs| ==> Actions(jobs)[i].dest != Actions(jobs)[j].dest)
  }

  lemma ActionsTail(jobs: seq<Job>)
    requires AllReady(jobs) && jobs != []
    ensures AllReady(jobs[1..])
    ensures Actions(jobs) == [jobs[0].prepared.value] + Actions(jobs[1..])
    ensures forall i :: 0 <= i < |jobs| - 1 ==> Actions(jobs[1..])[i] == Actions(jobs)[i + 1]
  {
  }

  lemma NoCollisionsTail(jobs: seq<Job>, existing: set<PurePath>)
    requires AllReady(jobs) && jobs != [] && NoCollisions(jobs, existing)
    ensures AllReady(jobs[1..])
    ensures jobs[0].prepared.value.dest !in existing
    ensures NoCollisions(jobs[1..], existing + {jobs[0].prepared.value.dest})
  {
    ActionsTail(jobs);
    assert Actions(jobs)[0] == jobs[0].prepared.value;
  }

  /** When every file prepares, no destination exists beforehand and no two
      files share one, nobody is asked anything: every file is written, in
      order, and no reply is read. */
  lemma {:induction false} RunWithoutCollisions(jobs: seq<Job>, existing: set<PurePath>, replies: seq<string>, overwriteAll: bool)
    requires AllReady(jobs) && NoCollisions(jobs, existing)
    ensures RunJobs(jobs, existing, replies, overwriteAll)
         == Outcome(Actions(jobs), Exhausted, existing + Dests(Actions(jobs)), replies, overwriteAll)
  {
    if jobs != [] {
      var w := jobs[0].prepared.value;
      var rest := Actions(jobs[1..]);
      ActionsTail(jobs);
      NoCollisionsTail(jobs, existing);
      assert Gate(jobs[0], existing, replies, overwriteAll) == Written(w, replies, overwriteAll);
      RunWithoutCollisions(jobs[1..], existing + {w.dest}, replies, overwriteAll);
      assert ([w] + rest)[1..] == rest;
    }
  }

  // ---------------------------------------------------------------------------
  // The loop itself.

  /** The body of the loop up to the prompt: load the file, select its record,
      scan for the audio and resolve the destination, failing as the script's
      assertions and exceptions do. */
  method PrepareFile(s: Settings, f: Source) returns (r: Result<WriteAction, Failure>)
    ensures r == Prepare(s, f)
  {
    var matFilename := f.path;
    if f.contents.None? {
      return Err(Unreadable(matFilename));
    }
    var mat := f.contents.value;
    var recordLoc := mat.Keys - MetadataKeys;
    if |recordLoc| != 1 {
      return Err(RecordCount(matFilename, |recordLoc|));
    }
    var key :| key in recordLoc;
    SingletonMember(recordLoc, key);
    var record := mat[key];
    var audio := ScanAudio(record, s.forceBitrate);
    if audio.None? {
      return Err(MissingAudio(matFilename));
    }
    var wavFilename := Destination(s, matFilename);
    if wavFilename.None? {
      return Err(BadTemplate(matFilename));
    }
    r := Ok(WriteAction(wavFilename.value, audio.value.rate, audio.value.samples, EncoderOf(s)));
  }

  /** The overwrite gate around the prompt: ask only when the destination exists
      and `overwriteAll` is unset, reading one reply; running out of replies is
      the end of input on the console. */
  method AskOverwrite(path: string, w: WriteAction, onDisk: set<PurePath>, pending: seq<string>, overwriteAll: bool)
    returns (step: Step)
    ensures step == Gate(Job(path, Ok(w)), onDisk, pending, overwriteAll)
  {
    if w.dest in onDisk && !overwriteAll {
      if pending == [] {
        return Halted(Abort(NoReply(path)), pending);
      }
      var resp := Decide(pending[0]);
      if resp == Yes {
        step := Written(w, pending[1..], overwriteAll);
      } else if resp == All {
        step := Written(w, pending[1..], true);
      } else if resp == Quit {
        step := Halted(QuitRequested, pending[1..]);
      } else {
        step := Skipped(pending[1..]);
      }
    } else {
      step := Written(w, pending, overwriteAll);
    }
  }

  /** The script's main loop: `overwriteAll` starts unset, and the files are
      processed in the order the glob yields them. */
  method ProcessBatch(s: Settings, files: seq<Source>, existing: set<PurePath>, replies: seq<string>)
    returns (o: Outcome)
    ensures o == Run(s, files, existing, replies)
    ensures Overrides(s.forceBitrate) ==> forall j :: 0 <= j < |o.writes| ==> o.writes[j].rate == s.forceBitrate.value
    ensures o.existing == existing + Dests(o.writes)
  {
    ghost var jobs := Jobs(s, files);
    var overwriteAll := false;
    var onDisk := existing;
    var pending := replies;
    var writes: seq<WriteAction> := [];
    var stop := Exhausted;
    assert jobs[0..] == jobs;
    PrecededTwice([], [], RunJobs(jobs, existing, replies, false));
    for i := 0 to |files|
      invariant RunJobs(jobs, existing, replies, false)
             == Preceded(writes, RunJobs(jobs[i..], onDisk, pending, overwriteAll))
    {
      assert jobs[i..] == [jobs[i]] + jobs[i + 1..];
      RunCons(jobs[i], jobs[i + 1..], onDisk, pending, overwriteAll);
      var prepared := PrepareFile(s, files[i]);
      JobAt(s, files, i);
      var step;
      if prepared.Err? {
        step := Halted(Abort(prepared.error), pending);
      } else {
        step := AskOverwrite(files[i].path, prepared.value, onDisk, pending, overwriteAll);
      }
      assert step == Gate(jobs[i], onDisk, pending, overwriteAll);
      match step
      case Halted(why, rest) =>
        stop, pending := why, rest;
        assert writes + [] == writes;
        break;
      case Skipped(rest) =>
        pending := rest;
        continue;
      case Written(w, rest, all) =>
        PrecededTwice(writes, [w], RunJobs(jobs[i + 1..], onDisk + {w.dest}, rest, all));
        writes, onDisk, pending, overwriteAll := writes + [w], onDisk + {w.dest}, rest, all;
    }
    o := Outcome(writes, stop, onDisk, pending, overwriteAll);
    if Overrides(s.forceBitrate) {
      RunOverrideRate(s, files, existing, replies);
    }
    RunExisting(jobs, existing, replies, false);
  }
}
