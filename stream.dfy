/**
 * The event-stream generator `generate`: it runs the downloader, relays every
 * output line as a server-sent event, watches for a stall, and after the
 * process ends classifies the download folder and decides how the files are
 * delivered.
 *
 * The process, the clock and the file system are inputs (`World`): the
 * observations of the polling loop, the lines left to drain, the exit code,
 * and what `os.walk` lists. `Stream` is the specification of one run, and the
 * method `Generate` computes it with the loops of the source.
 */
module Stream {
  import opened Wrappers
  import opened Text
  import Patterns
  import Quoting
  import opened Download

  /** Seconds without output after which the process is killed. */
  const StallLimit: real := 300.0

  /** The album name until a line names one. */
  const DefaultAlbum := "playlist"

  /** The folder-name suffix the admin post-processing removes. */
  const TopicSuffix := " - topic"

  /** One server-sent event carrying `payload` in its data field. */
  function Event(payload: string): string {
    "data: " + payload + "\n\n"
  }

  /** The event for one line of process output: the line with its surrounding whitespace stripped. */
  function LineEvent(line: string): string {
    Event(Strip(line))
  }

  const StallEvent := Event("Error: Download stalled for 5 minutes.")
  const NoAudioEvent := Event("Error: No valid audio files found.")
  const SavedEvent := Event("Download completed. Files saved to server directory.")
  const CompleteEvent := "event: complete\ndata: done\n\n"

  /** `str(process.returncode)`: the return code is None while no poll has seen the process exit. */
  function CodeText(code: Option<int>): string {
    match code
    case None => "None"
    case Some(c) => IntToString(c)
  }

  function ExitCodeEvent(code: Option<int>): string {
    Event("Error: Download exited with code " + CodeText(code) + ".")
  }

  function ExceptionEvent(message: string): string {
    Event("Error: " + message)
  }

  function DeliveryEvent(sessionId: string, name: string): string {
    Event("DOWNLOAD: " + sessionId + "/" + name)
  }

  /**
   * One turn of `while process.poll() is None`: `readline()` returned `line`,
   * and `time.time()`, read on the branch taken, gave `now`.
   */
  datatype Read = Read(line: string, now: real)

  /** What the process, the clock and the file system show one run of the generator. */
  datatype World = World(
    launchError: Option<string>,        // the message of the exception Popen raises, if it does
    startTime: real,                    // time.time() just after the launch
    turns: seq<Read>,                   // the loop turns while poll() is None, in order
    exitCode: int,                      // what poll() returns when the loop condition fails
    drained: seq<string>,               // the lines `for line in process.stdout` yields
    files: seq<string>,                 // the files os.walk finds, relative to the folder
    dirs: seq<(string, seq<string>)>)   // os.walk's (root, dirnames) pairs, in walk order

  /** The zip file built for an anonymous multi-file download: its file name, its path and its entry names. */
  datatype Archive = Archive(name: string, path: string, entries: seq<string>)

  datatype Rename = Rename(source: string, target: string)

  /** How the stream ends. */
  datatype Outcome =
    | Crashed(message: string)          // an exception reached the catch-all
    | ExitedWith(code: Option<int>)     // the return code was not 0
    | NoAudio                           // return code 0, no audio file found
    | Archived(archive: Archive)        // anonymous caller, several audio files
    | Single(relPath: string)           // anonymous caller, one audio file
    | InPlace                           // admin caller: the files stay where they are

  /** Everything one run produces: the events in order, how it ended, the folders renamed, and whether the folder is scheduled for deletion. */
  datatype StreamResult = StreamResult(events: seq<string>, outcome: Outcome, renames: seq<Rename>, deleteScheduled: bool)

  /** The generator's local state during the polling loop. */
  datatype LoopState = LoopState(album: string, lastOutput: real, events: seq<string>, stalled: bool)

  function Start(t0: real): LoopState {
    LoopState(DefaultAlbum, t0, [], false)
  }

  /** The album name a line gives, if it matches one of the two patterns. */
  function NewAlbum(line: string): Option<string> {
    match Patterns.AlbumCapture(line)
    case Some(c) => Some(Strip(c))
    case None => None
  }

  /** One turn of the polling loop; once stalled, the loop has been left and nothing changes. */
  function Step(st: LoopState, r: Read): LoopState {
    if st.stalled then st
    else if r.line != "" then
      var album := match NewAlbum(r.line) case Some(a) => a case None => st.album;
      LoopState(album, r.now, st.events + [LineEvent(r.line)], false)
    else if r.now - st.lastOutput > StallLimit then
      st.(events := st.events + [StallEvent], stalled := true)
    else st
  }

  /** The polling loop over a sequence of turns. */
  function Run(st: LoopState, rs: seq<Read>): LoopState {
    if |rs| == 0 then st else Step(Run(st, rs[..|rs| - 1]), rs[|rs| - 1])
  }

  /** The events of the drain loop: one per line, in order. */
  function DrainEvents(lines: seq<string>): seq<string> {
    if |lines| == 0 then [] else DrainEvents(lines[..|lines| - 1]) + [LineEvent(lines[|lines| - 1])]
  }

  /** The file test of the comprehension at line 117, on the full path `os.walk` builds. */
  predicate IsAudioFile(folder: string, rel: string) {
    var path := Lower(Join(folder, rel));
    EndsWith(path, ".mp3") || EndsWith(path, ".m4a") || EndsWith(path, ".flac")
    || EndsWith(path, ".wav") || EndsWith(path, ".ogg")
  }

  /** `valid_audio_files`: the audio files in walk order, each as often as it was found. */
  function ValidAudioFiles(folder: string, files: seq<string>): (r: seq<string>)
    ensures |r| <= |files|
  {
    if |files| == 0 then []
    else
      var init := files[..|files| - 1];
      var f := files[|files| - 1];
      assert files == init + [f];
      ValidAudioFiles(folder, init) + if IsAudioFile(folder, f) then [f] else []
  }

  /** Each audio file is kept as often as the walk found it, and nothing else is kept. */
  lemma {:induction false} ValidAudioFilesCount(folder: string, files: seq<string>)
    ensures forall f :: multiset(ValidAudioFiles(folder, files))[f] == if IsAudioFile(folder, f) then multiset(files)[f] else 0
  {
    if |files| > 0 {
      var init := files[..|files| - 1];
      assert files == init + [files[|files| - 1]];
      ValidAudioFilesCount(folder, init);
    }
  }

  /** The filter distributes over concatenation, so it keeps the walk order. */
  lemma {:induction false} ValidAudioFilesAppend(folder: string, a: seq<string>, b: seq<string>)
    ensures ValidAudioFiles(folder, a + b) == ValidAudioFiles(folder, a) + ValidAudioFiles(folder, b)
    decreases |b|
  {
    if |b| == 0 {
      assert a + b == a;
    } else {
      var b' := b[..|b| - 1];
      assert (a + b)[..|a + b| - 1] == a + b';
      assert (a + b)[|a + b| - 1] == b[|b| - 1];
      ValidAudioFilesAppend(folder, a, b');
    }
  }

  /** `d.replace(" - topic", "")`: every occurrence goes, not only the final one. */
  function TopicRename(d: string): string {
    ReplaceAll(d, TopicSuffix, "")
  }

  /** The renames of one walk step: each sub-folder whose name ends with " - topic". */
  function RenamesIn(root: string, names: seq<string>): seq<Rename> {
    if |names| == 0 then []
    else
      var d := names[|names| - 1];
      RenamesIn(root, names[..|names| - 1])
        + if EndsWith(d, TopicSuffix) then [Rename(Join(root, d), Join(root, TopicRename(d)))] else []
  }

  function TopicRenames(dirs: seq<(string, seq<string>)>): seq<Rename> {
    if |dirs| == 0 then []
    else TopicRenames(dirs[..|dirs| - 1]) + RenamesIn(dirs[|dirs| - 1].0, dirs[|dirs| - 1].1)
  }

  /**
   * Lines 115-147: how a run ends, from the return code, the caller's
   * privilege, the album name and the files found.
   */
  function Classify(plan: Plan, album: string, code: Option<int>, files: seq<string>): (o: Outcome)
    ensures code != Some(0) ==> o == ExitedWith(code)
    ensures code == Some(0) ==> (o == NoAudio <==> ValidAudioFiles(plan.folder, files) == [])
    ensures o.InPlace? <==> code == Some(0) && plan.isAdmin && ValidAudioFiles(plan.folder, files) != []
    ensures o.Single? <==> code == Some(0) && !plan.isAdmin && |ValidAudioFiles(plan.folder, files)| == 1
    ensures o.Single? ==> o.relPath == ValidAudioFiles(plan.folder, files)[0]
    ensures o.Archived? <==> code == Some(0) && !plan.isAdmin && |ValidAudioFiles(plan.folder, files)| > 1
    ensures o.Archived? ==>
      o.archive == Archive(album + ".zip", Join(plan.folder, album + ".zip"), ValidAudioFiles(plan.folder, files))
    ensures !o.Crashed?
  {
    if code != Some(0) then ExitedWith(code)
    else
      var valid := ValidAudioFiles(plan.folder, files);
      if |valid| == 0 then NoAudio
      else if |valid| > 1 && !plan.isAdmin then Archived(Archive(album + ".zip", Join(plan.folder, album + ".zip"), valid))
      else if !plan.isAdmin then Single(valid[0])
      else InPlace
  }

  /** The events that end the stream. */
  function OutcomeEvents(o: Outcome, sessionId: string): seq<string> {
    match o
    case Crashed(m) => [ExceptionEvent(m)]
    case ExitedWith(c) => [ExitCodeEvent(c)]
    case NoAudio => [NoAudioEvent]
    case Archived(a) => [DeliveryEvent(sessionId, a.name)]
    case Single(p) => [DeliveryEvent(sessionId, Quoting.Quote(p))]
    case InPlace => [SavedEvent, CompleteEvent]
  }

  /**
   * The specification of one run of `generate`: the line events of the
   * polling loop (with the stall event when it stalls), the drained lines, and
   * the events of the outcome. After a stall the process is not polled after
   * the kill, so its return code is None, which is not 0.
   */
  function Stream(plan: Plan, w: World): StreamResult {
    match w.launchError
    case Some(m) => StreamResult([ExceptionEvent(m)], Crashed(m), [], false)
    case None =>
      var st := Run(Start(w.startTime), w.turns);
      var code := if st.stalled then None else Some(w.exitCode);
      var o := Classify(plan, st.album, code, w.files);
      var renames := if o.InPlace? && "spotify" !in plan.command then TopicRenames(w.dirs) else [];
      StreamResult(st.events + DrainEvents(w.drained) + OutcomeEvents(o, plan.sessionId), o, renames,
                   o.Archived? || o.Single?)
  }

  /** One more turn is one more step. */
  lemma RunSnoc(st: LoopState, rs: seq<Read>, i: nat)
    requires i < |rs|
    ensures Run(st, rs[..i + 1]) == Step(Run(st, rs[..i]), rs[i])
  {
    assert rs[..i + 1][..i] == rs[..i];
  }

  lemma {:induction false} RunStaysStalled(st: LoopState, rs: seq<Read>, n: nat)
    requires n <= |rs| && Run(st, rs[..n]).stalled
    ensures Run(st, rs) == Run(st, rs[..n])
    decreases |rs| - n
  {
    if n < |rs| {
      assert rs[..n + 1][..n] == rs[..n];
      RunStaysStalled(st, rs, n + 1);
    } else {
      assert rs[..n] == rs;
    }
  }

  /** The post-processing loops at lines 125-130, collecting the renames they perform. */
  method PlanTopicRenames(dirs: seq<(string, seq<string>)>) returns (renames: seq<Rename>)
    ensures renames == TopicRenames(dirs)
  {
    renames := [];
    for i := 0 to |dirs|
      invariant renames == TopicRenames(dirs[..i])
    {
      var (root, names) := dirs[i];
      for j := 0 to |names|
        invariant renames == TopicRenames(dirs[..i]) + RenamesIn(root, names[..j])
      {
        var d := names[j];
        if EndsWith(d, TopicSuffix) {
          renames := renames + [Rename(Join(root, d), Join(root, TopicRename(d)))];
        }
        assert names[..j + 1][..j] == names[..j];
      }
      assert names[..|names|] == names;
      assert dirs[..i + 1][..i] == dirs[..i];
    }
    assert dirs[..|dirs|] == dirs;
  }

  /** The `while process.poll() is None` loop of lines 95-108. */
  method Poll(t0: real, turns: seq<Read>) returns (st: LoopState)
    ensures st == Run(Start(t0), turns)
  {
    var album := DefaultAlbum;
    var lastOutput := t0;
    var events: seq<string> := [];
    var i := 0;
    while i < |turns|
      invariant 0 <= i <= |turns|
      invariant Run(Start(t0), turns[..i]) == LoopState(album, lastOutput, events, false)
    {
      var r := turns[i];
      RunSnoc(Start(t0), turns, i);
      if r.line != "" {
        events := events + [LineEvent(r.line)];
        lastOutput := r.now;
        var m := NewAlbum(r.line);
        if m.Some? {
          album := m.value;
        }
      } else if r.now - lastOutput > StallLimit {
        // process.kill(); the loop is left
        events := events + [StallEvent];
        RunStaysStalled(Start(t0), turns, i + 1);
        return LoopState(album, lastOutput, events, true);
      }
      i := i + 1;
    }
    assert turns[..i] == turns;
    st := LoopState(album, lastOutput, events, false);
  }

  /** The zip-building loop of lines 136-139: one entry per audio file, named by its folder-relative path. */
  method ArchiveEntries(valid: seq<string>) returns (entries: seq<string>)
    ensures entries == valid
  {
    entries := [];
    for k := 0 to |valid|
      invariant entries == valid[..k]
    {
      entries := entries + [valid[k]];
    }
    assert valid[..|valid|] == valid;
  }

  /** Lines 115-151, after the output is drained: the outcome, its events, the renames and the deletion decision. */
  method Finish(plan: Plan, album: string, code: Option<int>, files: seq<string>, dirs: seq<(string, seq<string>)>)
    returns (outcome: Outcome, events: seq<string>, renames: seq<Rename>, deleteScheduled: bool)
    ensures outcome == Classify(plan, album, code, files)
    ensures events == OutcomeEvents(outcome, plan.sessionId)
    ensures renames == if outcome.InPlace? && "spotify" !in plan.command then TopicRenames(dirs) else []
    ensures deleteScheduled == (outcome.Archived? || outcome.Single?)
  {
    renames := [];
    deleteScheduled := false;
    if code == Some(0) {
      var valid := ValidAudioFiles(plan.folder, files);
      if |valid| == 0 {
        return NoAudio, [NoAudioEvent], [], false;
      }
      if "spotify" !in plan.command && plan.isAdmin {
        renames := PlanTopicRenames(dirs);
      }
      if |valid| > 1 && !plan.isAdmin {
        var zipName := album + ".zip";
        var entries := ArchiveEntries(valid);
        outcome := Archived(Archive(zipName, Join(plan.folder, zipName), entries));
        events := [DeliveryEvent(plan.sessionId, zipName)];
      } else if !plan.isAdmin {
        outcome := Single(valid[0]);
        events := [DeliveryEvent(plan.sessionId, Quoting.Quote(valid[0]))];
      } else {
        outcome := InPlace;
        events := [SavedEvent, CompleteEvent];
      }
      deleteScheduled := !plan.isAdmin;
    } else {
      outcome := ExitedWith(code);
      events := [ExitCodeEvent(code)];
    }
  }

  /** `generate`: launch, poll, drain, then finish. */
  method Generate(plan: Plan, w: World) returns (res: StreamResult)
    ensures res == Stream(plan, w)
  {
    if w.launchError.Some? {
      var m := w.launchError.value;
      return StreamResult([ExceptionEvent(m)], Crashed(m), [], false);
    }
    var st := Poll(w.startTime, w.turns);
    var events := st.events;
    for k := 0 to |w.drained|
      invariant events == st.events + DrainEvents(w.drained[..k])
    {
      events := events + [LineEvent(w.drained[k])];
      assert w.drained[..k + 1][..k] == w.drained[..k];
    }
    assert w.drained[..|w.drained|] == w.drained;
    var code: Option<int> := if st.stalled then None else Some(w.exitCode);
    var outcome, last, renames, deleteScheduled := Finish(plan, st.album, code, w.files, w.dirs);
    res := StreamResult(events + last, outcome, renames, deleteScheduled);
  }

  // ---------------------------------------------------------------------
  // The polling loop, described declaratively

  /** The events of the non-empty lines among the turns `rs`, in order. */
  function LineEvents(rs: seq<Read>): seq<string> {
    if |rs| == 0 then []
    else
      var r := rs[|rs| - 1];
      LineEvents(rs[..|rs| - 1]) + if r.line != "" then [LineEvent(r.line)] else []
  }

  /** When the last non-empty line among `rs` was read, or `t0` when there is none. */
  function LastOutput(t0: real, rs: seq<Read>): real {
    if |rs| == 0 then t0
    else if rs[|rs| - 1].line != "" then rs[|rs| - 1].now
    else LastOutput(t0, rs[..|rs| - 1])
  }

  /** At turn `i` the read is empty and the process has been silent for more than the limit. */
  predicate StallsAt(t0: real, rs: seq<Read>, i: int) {
    0 <= i < |rs| && rs[i].line == "" && rs[i].now - LastOutput(t0, rs[..i]) > StallLimit
  }

  /** Turn `i` names an album: a non-empty line that one of the two patterns matches. */
  predicate NamesAlbum(rs: seq<Read>, i: int) {
    0 <= i < |rs| && Names(rs[i])
  }

  predicate Names(r: Read) {
    r.line != "" && NewAlbum(r.line).Some?
  }

  /** The album name after the turns `rs`: that of the last line naming one, else the default. */
  function AlbumAfter(rs: seq<Read>): string {
    if |rs| == 0 then DefaultAlbum
    else if NamesAlbum(rs, |rs| - 1) then NewAlbum(rs[|rs| - 1].line).value
    else AlbumAfter(rs[..|rs| - 1])
  }

  lemma StallsAtPrefix(t0: real, rs: seq<Read>, m: nat, i: int)
    requires 0 <= i < m <= |rs|
    ensures StallsAt(t0, rs[..m], i) <==> StallsAt(t0, rs, i)
  {
    assert rs[..m][..i] == rs[..i];
  }

  /** Without a stall, the loop relays every non-empty line and ends with the album of the last naming line. */
  lemma {:induction false} RunWithoutStall(t0: real, rs: seq<Read>)
    requires forall i :: 0 <= i < |rs| ==> !StallsAt(t0, rs, i)
    ensures Run(Start(t0), rs) == LoopState(AlbumAfter(rs), LastOutput(t0, rs), LineEvents(rs), false)
  {
    if |rs| > 0 {
      var n := |rs| - 1;
      var p := rs[..n];
      forall i | 0 <= i < |p| ensures !StallsAt(t0, p, i) {
        StallsAtPrefix(t0, rs, n, i);
      }
      RunWithoutStall(t0, p);
      assert rs[..n] == p;
      assert !StallsAt(t0, rs, n);
    }
  }

  /**
   * At the first turn that finds the process silent too long, the loop emits
   * the stall event and stops: what it relayed are the lines before that turn.
   */
  lemma {:induction false} RunStalls(t0: real, rs: seq<Read>, i: nat)
    requires StallsAt(t0, rs, i) && forall j :: 0 <= j < i ==> !StallsAt(t0, rs, j)
    ensures Run(Start(t0), rs)
      == LoopState(AlbumAfter(rs[..i]), LastOutput(t0, rs[..i]), LineEvents(rs[..i]) + [StallEvent], true)
  {
    var n := |rs| - 1;
    var p := rs[..n];
    if i == n {
      forall j | 0 <= j < |p| ensures !StallsAt(t0, p, j) {
        StallsAtPrefix(t0, rs, n, j);
      }
      RunWithoutStall(t0, p);
    } else {
      StallsAtPrefix(t0, rs, n, i);
      forall j | 0 <= j < i ensures !StallsAt(t0, p, j) {
        StallsAtPrefix(t0, rs, n, j);
      }
      RunStalls(t0, p, i);
      assert p[..i] == rs[..i];
    }
  }

  /** A step stalls the loop when it was stalled already or the read is empty and late. */
  lemma StepStalled(st: LoopState, r: Read)
    ensures Step(st, r).stalled == (st.stalled || (r.line == "" && r.now - st.lastOutput > StallLimit))
  {
  }

  /** Without a stall, the loop has not stalled and remembers the time of the last output. */
  lemma {:induction false} QuietRun(t0: real, rs: seq<Read>)
    requires forall i :: 0 <= i < |rs| ==> !StallsAt(t0, rs, i)
    ensures !Run(Start(t0), rs).stalled && Run(Start(t0), rs).lastOutput == LastOutput(t0, rs)
  {
    if |rs| > 0 {
      var n := |rs| - 1;
      var p := rs[..n];
      forall i | 0 <= i < |p| ensures !StallsAt(t0, p, i) {
        StallsAtPrefix(t0, rs, n, i);
      }
      QuietRun(t0, p);
      assert rs[..n] == p;
      assert !StallsAt(t0, rs, n);
      StepStalled(Run(Start(t0), p), rs[n]);
    }
  }

  /** The loop stalls exactly when some turn finds the process silent for more than the limit. */
  lemma {:induction false} StalledIffSilent(t0: real, rs: seq<Read>)
    ensures Run(Start(t0), rs).stalled <==> exists i :: StallsAt(t0, rs, i)
  {
    if |rs| > 0 {
      var n := |rs| - 1;
      var p := rs[..n];
      StalledIffSilent(t0, p);
      assert rs[..n] == p;
      var q := Run(Start(t0), p);
      StepStalled(q, rs[n]);
      if q.stalled {
        var i :| StallsAt(t0, p, i);
        StallsAtPrefix(t0, rs, n, i);
        assert StallsAt(t0, rs, i);
      } else {
        forall j | 0 <= j < n ensures !StallsAt(t0, rs, j) {
          StallsAtPrefix(t0, rs, n, j);
        }
        QuietRun(t0, p);
        assert Run(Start(t0), rs).stalled == StallsAt(t0, rs, n);
        if !StallsAt(t0, rs, n) {
          forall i ensures !StallsAt(t0, rs, i) {
            if 0 <= i < n {
              assert !StallsAt(t0, rs, i);
            }
          }
        }
      }
    }
  }

  /** Turns after `m` that name no album leave the album name as it was after the first `m`. */
  lemma {:induction false} AlbumAfterPrefix(rs: seq<Read>, m: nat)
    requires m <= |rs| && forall k :: m <= k < |rs| ==> !NamesAlbum(rs, k)
    ensures AlbumAfter(rs) == AlbumAfter(rs[..m])
    decreases |rs|
  {
    if m < |rs| {
      var n := |rs| - 1;
      var p := rs[..n];
      assert !NamesAlbum(rs, n);
      forall k | m <= k < |p| ensures !NamesAlbum(p, k) {
        assert p[k] == rs[k];
        assert !NamesAlbum(rs, k);
      }
      AlbumAfterPrefix(p, m);
      assert p[..m] == rs[..m];
    } else {
      assert rs[..m] == rs;
    }
  }

  /** The album name is that of the last line naming one. */
  lemma AlbumOfLastNamingLine(rs: seq<Read>, j: nat)
    requires NamesAlbum(rs, j) && forall k :: j < k < |rs| ==> !NamesAlbum(rs, k)
    ensures Some(AlbumAfter(rs)) == NewAlbum(rs[j].line)
  {
    AlbumAfterPrefix(rs, j + 1);
    var q := rs[..j + 1];
    assert q[j] == rs[j];
    assert NamesAlbum(q, j);
  }

  /** When no line names an album, the archive is called "playlist". */
  lemma {:induction false} AlbumDefault(rs: seq<Read>)
    requires forall k :: 0 <= k < |rs| ==> !NamesAlbum(rs, k)
    ensures AlbumAfter(rs) == DefaultAlbum
  {
    if |rs| > 0 {
      var p := rs[..|rs| - 1];
      forall k | 0 <= k < |p| ensures !NamesAlbum(p, k) {
        assert !NamesAlbum(rs, k);
      }
      AlbumDefault(p);
    }
  }

  // ---------------------------------------------------------------------
  // Properties of a whole run

  /**
   * A stalled download: the stream is the lines before the silent turn, the
   * stall event, the drained lines and then the exit-code event with the
   * return code None, since the process is not polled after the kill. No
   * file is delivered, renamed or scheduled for deletion.
   */
  lemma StreamAfterStall(plan: Plan, w: World, i: nat)
    requires w.launchError.None?
    requires StallsAt(w.startTime, w.turns, i) && forall j :: 0 <= j < i ==> !StallsAt(w.startTime, w.turns, j)
    ensures Stream(plan, w) == StreamResult(
      LineEvents(w.turns[..i]) + [StallEvent] + DrainEvents(w.drained) + [ExitCodeEvent(None)],
      ExitedWith(None), [], false)
  {
    RunStalls(w.startTime, w.turns, i);
  }

  /**
   * A download that never stalls: every non-empty line is relayed, then the
   * drained lines, then the events of the outcome, which is classified with the
   * process's own return code and the album of the last line naming one.
   */
  lemma StreamWithoutStall(plan: Plan, w: World)
    requires w.launchError.None?
    requires forall i :: 0 <= i < |w.turns| ==> !StallsAt(w.startTime, w.turns, i)
    ensures var o := Classify(plan, AlbumAfter(w.turns), Some(w.exitCode), w.files);
      Stream(plan, w).outcome == o
      && Stream(plan, w).events == LineEvents(w.turns) + DrainEvents(w.drained) + OutcomeEvents(o, plan.sessionId)
  {
    RunWithoutStall(w.startTime, w.turns);
  }

  /**
   * The folder is scheduled for deletion exactly when an anonymous caller's
   * process exited with 0 and left at least one audio file; an admin's
   * folder never is.
   */
  lemma DeletionIffAnonymousDelivery(plan: Plan, w: World)
    ensures Stream(plan, w).deleteScheduled <==>
      w.launchError.None? && !plan.isAdmin && !Run(Start(w.startTime), w.turns).stalled
      && w.exitCode == 0 && ValidAudioFiles(plan.folder, w.files) != []
  {
  }

  /**
   * A single audio file is announced by its quoted folder-relative path, and
   * percent-decoding that name gives the path back.
   */
  lemma SingleDeliveryDecodes(plan: Plan, w: World)
    requires Stream(plan, w).outcome.Single?
    ensures var r := Stream(plan, w); var p := r.outcome.relPath;
      |r.events| > 0 && r.events[|r.events| - 1] == DeliveryEvent(plan.sessionId, Quoting.Quote(p))
      && Quoting.Unquote(Quoting.Quote(p)) == Some(p)
  {
    Quoting.UnquoteQuote(Stream(plan, w).outcome.relPath);
  }

  /**
   * The stream ends with the events of its outcome, and the completion event
   * appears there only for an admin whose download succeeded.
   */
  lemma CompleteOnlyInPlace(plan: Plan, w: World)
    ensures var r := Stream(plan, w);
      |OutcomeEvents(r.outcome, plan.sessionId)| <= |r.events|
      && r.events[|r.events| - |OutcomeEvents(r.outcome, plan.sessionId)|..] == OutcomeEvents(r.outcome, plan.sessionId)
      && (CompleteEvent in OutcomeEvents(r.outcome, plan.sessionId) <==> r.outcome.InPlace?)
  {
    var r := Stream(plan, w);
    var o := r.outcome;
    if o.Crashed? {
      assert CompleteEvent != ExceptionEvent(o.message) by {
        assert CompleteEvent[0] != ExceptionEvent(o.message)[0];
      }
    } else if o.ExitedWith? {
      assert CompleteEvent[0] != ExitCodeEvent(o.code)[0];
    } else if o.NoAudio? {
      assert CompleteEvent[0] != NoAudioEvent[0];
    } else if o.Archived? {
      assert CompleteEvent[0] != DeliveryEvent(plan.sessionId, o.archive.name)[0];
    } else if o.Single? {
      assert CompleteEvent[0] != DeliveryEvent(plan.sessionId, Quoting.Quote(o.relPath))[0];
    }
  }

  /**
   * The rename guard tests whether some argument is exactly "spotify". For an
   * admin's spotdl download of any real link (which contains "spotify" but is
   * longer) the guard passes, so the " - topic" folders are renamed even
   * though the comment at line 123 means the step for YouTube downloads.
   */
  lemma SpotdlAdminStillRenames(link: string, sessionId: string, audioEnv: Option<string>, w: World)
    requires Contains(link, "spotify") && link != "spotify"
    requires var plan := DownloadMedia(Some(link), true, sessionId, audioEnv).value;
      Stream(plan, w).outcome.InPlace?
    ensures var plan := DownloadMedia(Some(link), true, sessionId, audioEnv).value;
      ToolFor(link) == SpotDl && Stream(plan, w).renames == TopicRenames(w.dirs)
  {
    SpotifyArgument(link, AudioDownloadPath(audioEnv));
  }

  /** The one link for which the guard fails: the link "spotify" itself, whose admin download renames nothing. */
  lemma LiteralSpotifyLinkRenamesNothing(sessionId: string, audioEnv: Option<string>, w: World)
    ensures var plan := DownloadMedia(Some("spotify"), true, sessionId, audioEnv).value;
      Stream(plan, w).renames == []
  {
    SpotifyArgument("spotify", AudioDownloadPath(audioEnv));
  }

  /** Only a successful admin download renames anything. */
  lemma RenamesOnlyInPlace(plan: Plan, w: World)
    requires Stream(plan, w).renames != []
    ensures plan.isAdmin && Stream(plan, w).outcome.InPlace?
  {
  }

  /** " - topic" has no border, so a name that ends with it, and contains it nowhere else, loses exactly that suffix. */
  lemma TopicRenameOfSuffixed(base: string)
    requires !Contains(base, TopicSuffix)
    ensures TopicRename(base + TopicSuffix) == base
  {
    var pat := TopicSuffix;
    forall k | 0 < k < |pat| ensures pat[k..] != pat[..|pat| - k] {
      assert pat[k..][0] != pat[..|pat| - k][0] || pat[k..][1] != pat[..|pat| - k][1];
    }
    ReplaceSuffix(base, pat, "");
    assert base + "" == base;
  }

  /** `d.replace` drops every occurrence: "A - topic - topic" becomes "A". */
  lemma TopicRenameAll()
    ensures TopicRename("A - topic - topic") == "A"
  {
    var s := "A - topic - topic";
    assert !StartsWith(s, TopicSuffix);
    assert s[1..] == " - topic - topic";
    assert StartsWith(s[1..], TopicSuffix);
    assert s[1..][8..] == " - topic";
    assert StartsWith(s[1..][8..], TopicSuffix);
    assert s[1..][8..][8..] == "";
  }

  /** A walk step renames each " - topic" sub-folder, and only those, within its own root. */
  lemma {:induction false} RenamesInSuffixed(root: string, names: seq<string>, r: Rename)
    requires r in RenamesIn(root, names)
    ensures exists d :: d in names && EndsWith(d, TopicSuffix) && r == Rename(Join(root, d), Join(root, TopicRename(d)))
    decreases |names|
  {
    var init := names[..|names| - 1];
    var d := names[|names| - 1];
    if r in RenamesIn(root, init) {
      RenamesInSuffixed(root, init, r);
      var e :| e in init && EndsWith(e, TopicSuffix) && r == Rename(Join(root, e), Join(root, TopicRename(e)));
      assert e in names;
    } else {
      assert d in names;
    }
  }

  /** The rename a walk step plans for the sub-folder `d` of `root`. */
  function TopicRenameOf(root: string, d: string): Rename {
    Rename(Join(root, d), Join(root, TopicRename(d)))
  }

  /** The renames of a walk step follow the order of its sub-folder names. */
  lemma {:induction false} RenamesInAppend(root: string, a: seq<string>, b: seq<string>)
    ensures RenamesIn(root, a + b) == RenamesIn(root, a) + RenamesIn(root, b)
    decreases |b|
  {
    if |b| == 0 {
      assert a + b == a;
    } else {
      var b' := b[..|b| - 1];
      assert (a + b)[..|a + b| - 1] == a + b';
      assert (a + b)[|a + b| - 1] == b[|b| - 1];
      RenamesInAppend(root, a, b');
    }
  }

  /** The number of sub-folder names that end with " - topic", counted from the front. */
  function SuffixedCount(names: seq<string>): nat {
    if |names| == 0 then 0
    else (if EndsWith(names[0], TopicSuffix) then 1 else 0) + SuffixedCount(names[1..])
  }

  /** A walk step plans exactly one rename per " - topic" sub-folder name. */
  lemma {:induction false} RenamesInCount(root: string, names: seq<string>)
    ensures |RenamesIn(root, names)| == SuffixedCount(names)
    decreases |names|
  {
    if |names| > 0 {
      assert names == [names[0]] + names[1..];
      RenamesInAppend(root, [names[0]], names[1..]);
      assert RenamesIn(root, [names[0]]) == RenamesIn(root, []) + if EndsWith(names[0], TopicSuffix) then [TopicRenameOf(root, names[0])] else [];
      RenamesInCount(root, names[1..]);
    }
  }

  /** Every " - topic" sub-folder of a walk step is renamed. */
  lemma {:induction false} RenamesInComplete(root: string, names: seq<string>, d: string)
    requires d in names && EndsWith(d, TopicSuffix)
    ensures TopicRenameOf(root, d) in RenamesIn(root, names)
    decreases |names|
  {
    var init := names[..|names| - 1];
    if d != names[|names| - 1] {
      assert names == init + [names[|names| - 1]];
      assert d in init;
      RenamesInComplete(root, init, d);
    }
  }

  /** The renames of a walk follow the walk order of its steps. */
  lemma {:induction false} TopicRenamesAppend(a: seq<(string, seq<string>)>, b: seq<(string, seq<string>)>)
    ensures TopicRenames(a + b) == TopicRenames(a) + TopicRenames(b)
    decreases |b|
  {
    if |b| == 0 {
      assert a + b == a;
    } else {
      var b' := b[..|b| - 1];
      assert (a + b)[..|a + b| - 1] == a + b';
      assert (a + b)[|a + b| - 1] == b[|b| - 1];
      TopicRenamesAppend(a, b');
    }
  }

  /** Every " - topic" sub-folder of every walk step is renamed, within the root of its step. */
  lemma {:induction false} TopicRenamesComplete(dirs: seq<(string, seq<string>)>, k: nat, d: string)
    requires k < |dirs| && d in dirs[k].1 && EndsWith(d, TopicSuffix)
    ensures TopicRenameOf(dirs[k].0, d) in TopicRenames(dirs)
    decreases |dirs|
  {
    var init := dirs[..|dirs| - 1];
    if k == |dirs| - 1 {
      RenamesInComplete(dirs[k].0, dirs[k].1, d);
    } else {
      assert init[k] == dirs[k];
      TopicRenamesComplete(init, k, d);
    }
  }

  /** Each rename of a walk is of a " - topic" sub-folder of one of its steps, within that step's root. */
  lemma {:induction false} TopicRenamesSound(dirs: seq<(string, seq<string>)>, r: Rename)
    requires r in TopicRenames(dirs)
    ensures exists k, d :: 0 <= k < |dirs| && d in dirs[k].1 && EndsWith(d, TopicSuffix) && r == TopicRenameOf(dirs[k].0, d)
    decreases |dirs|
  {
    var init := dirs[..|dirs| - 1];
    var last := dirs[|dirs| - 1];
    if r in TopicRenames(init) {
      TopicRenamesSound(init, r);
      var k, d :| 0 <= k < |init| && d in init[k].1 && EndsWith(d, TopicSuffix) && r == TopicRenameOf(init[k].0, d);
      assert dirs[k] == init[k];
    } else {
      RenamesInSuffixed(last.0, last.1, r);
      var d :| d in last.1 && EndsWith(d, TopicSuffix) && r == Rename(Join(last.0, d), Join(last.0, TopicRename(d)));
      assert dirs[|dirs| - 1] == last;
    }
  }

  /**
   * A process that was not killed and exited with a code other than 0: after
   * the relayed and drained lines comes exactly one exit-code event, and
   * nothing is classified, renamed or scheduled for deletion.
   */
  lemma StreamOnFailedExit(plan: Plan, w: World)
    requires w.launchError.None? && !Run(Start(w.startTime), w.turns).stalled && w.exitCode != 0
    ensures Stream(plan, w) == StreamResult(
      Run(Start(w.startTime), w.turns).events + DrainEvents(w.drained) + [ExitCodeEvent(Some(w.exitCode))],
      ExitedWith(Some(w.exitCode)), [], false)
  {
  }

  /**
   * How a successful run delivers: an anonymous caller with several audio
   * files gets the archive named after the album, holding the files in walk
   * order; one with a single file gets its quoted path; an admin gets the
   * two completion events. The stream ends with that announcement.
   */
  lemma DeliveryShape(plan: Plan, w: World)
    requires w.launchError.None? && !Run(Start(w.startTime), w.turns).stalled && w.exitCode == 0
    requires ValidAudioFiles(plan.folder, w.files) != []
    ensures var r := Stream(plan, w); var valid := ValidAudioFiles(plan.folder, w.files);
      var album := Run(Start(w.startTime), w.turns).album;
      var before := Run(Start(w.startTime), w.turns).events + DrainEvents(w.drained);
      (!plan.isAdmin && |valid| > 1 ==>
        r.outcome == Archived(Archive(album + ".zip", Join(plan.folder, album + ".zip"), valid))
        && r.events == before + [DeliveryEvent(plan.sessionId, album + ".zip")])
      && (!plan.isAdmin && |valid| == 1 ==>
        r.outcome == Single(valid[0]) && r.events == before + [DeliveryEvent(plan.sessionId, Quoting.Quote(valid[0]))])
      && (plan.isAdmin ==> r.outcome == InPlace && r.events == before + [SavedEvent, CompleteEvent])
      && (r.deleteScheduled <==> !plan.isAdmin)
  {
  }
}
