/**
 * The target directory: one text file per local day, the checkpoint file,
 * and the git history.  `CreateGitCommit` appends a line to the day's file,
 * overwrites the checkpoint, and commits everything.
 */
module Git {

  import opened Wrappers
  import opened Decimal
  import opened TimeFormat
  import opened Env

  /**
   * A commit made by `git commit` after `git add .`: its message, the author
   * and committer dates it was given, and the tree it recorded.
   */
  datatype GitCommit = GitCommit(
    message: string,
    authorDate: string,
    committerDate: string,
    daily: map<string, string>,
    checkpoint: FileState)

  /** The directory as the model sees it: daily files by name, checkpoint, history. */
  datatype DirState = DirState(daily: map<string, string>, checkpoint: FileState, log: seq<GitCommit>)

  /** The step of `CreateGitCommit` at which the process is stopped by `log.Fatal`. */
  datatype Fault = OpenFailed | WriteFailed | CheckpointWriteFailed | GitAddFailed | GitCommitFailed

  /** The daily file of an instant: its local date, `YYYY-MM-DD.txt`. */
  function DailyFileName(date: Time): string {
    DateOnly(date) + ".txt"
  }

  /** The line appended to the daily file; `CET` is literal layout text. */
  function DailyLine(message: string, date: Time): string {
    Stamp(date) + " CET: " + message + "\n"
  }

  function CommitMessage(date: Time): string {
    "sync: " + Stamp(date) + " CET"
  }

  /** The checkpoint file after a write of `date`: its RFC 3339 text. */
  function Written(date: Time): FileState {
    Contents(FormatRFC3339(date))
  }

  /**
   * Everything `CreateGitCommit` writes, computed from its arguments before
   * the first step: the daily file's name, its new line, the checkpoint's
   * new content, the commit message and the commit's date.
   */
  datatype Effects = Effects(name: string, line: string, stamp: FileState, commitMessage: string, commitDate: string)

  function EffectsOf(message: string, date: Time): Effects {
    Effects(DailyFileName(date), DailyLine(message, date), Written(date), CommitMessage(date), FormatRFC3339(date))
  }

  /** The commit `git commit` makes of a tree: author and committer dates alike. */
  function CommitOf(e: Effects, tree: DirState): GitCommit {
    GitCommit(e.commitMessage, e.commitDate, e.commitDate, tree.daily, tree.checkpoint)
  }

  function ContentOf(daily: map<string, string>, name: string): string {
    if name in daily then daily[name] else ""
  }

  /**
   * The steps of `CreateGitCommit`, given the step (if any) that fails.
   * A failed open leaves everything as it was; a failed write leaves the
   * daily file created but without the new line; each later failure keeps
   * the effects of the steps before it.
   */
  function Perform(s: DirState, e: Effects, fault: Option<Fault>): DirState {
    var before := ContentOf(s.daily, e.name);
    if fault == Some(OpenFailed) then s
    else if fault == Some(WriteFailed) then
      if e.name in s.daily then s else s.(daily := s.daily[e.name := ""])
    else
      var appended := s.(daily := s.daily[e.name := before + e.line]);
      if fault == Some(CheckpointWriteFailed) then appended
      else
        var written := appended.(checkpoint := e.stamp);
        if fault.Some? then written
        else written.(log := written.log + [CommitOf(e, written)])
  }

  /** What `CreateGitCommit(message, date)` leaves behind. */
  function Materialize(s: DirState, message: string, date: Time, fault: Option<Fault>): DirState {
    Perform(s, EffectsOf(message, date), fault)
  }

  /** `SetLastRecordedDate`: the checkpoint overwrite on its own. */
  function SetCheckpoint(s: DirState, date: Time, failed: bool): DirState {
    if failed then s else s.(checkpoint := Written(date))
  }

  lemma PerformOtherFiles(s: DirState, e: Effects, fault: Option<Fault>, name: string)
    requires name != e.name
    ensures var s' := Perform(s, e, fault);
            (name in s'.daily <==> name in s.daily) && (name in s.daily ==> s'.daily[name] == s.daily[name])
  {
  }

  /** No daily file other than the record's own is created, removed or changed. */
  lemma MaterializeOtherFiles(s: DirState, message: string, date: Time, fault: Option<Fault>, name: string)
    requires name != DailyFileName(date)
    ensures var s' := Materialize(s, message, date, fault);
            (name in s'.daily <==> name in s.daily) && (name in s.daily ==> s'.daily[name] == s.daily[name])
  {
    PerformOtherFiles(s, EffectsOf(message, date), fault, name);
  }

  lemma PerformDailyFile(s: DirState, e: Effects, fault: Option<Fault>)
    ensures var s' := Perform(s, e, fault);
            (e.name in s'.daily <==> fault != Some(OpenFailed) || e.name in s.daily)
            && ContentOf(s'.daily, e.name)
               == if fault == Some(OpenFailed) || fault == Some(WriteFailed) then ContentOf(s.daily, e.name)
                  else ContentOf(s.daily, e.name) + e.line
  {
  }

  /**
   * The record's daily file exists afterwards unless it could not be
   * opened; its earlier text is kept, and it grows by exactly the record's
   * line once the write step is passed, or not at all.
   */
  lemma MaterializeDailyFile(s: DirState, message: string, date: Time, fault: Option<Fault>)
    ensures var name, s' := DailyFileName(date), Materialize(s, message, date, fault);
            (name in s'.daily <==> fault != Some(OpenFailed) || name in s.daily)
            && ContentOf(s'.daily, name)
               == if fault == Some(OpenFailed) || fault == Some(WriteFailed) then ContentOf(s.daily, name)
                  else ContentOf(s.daily, name) + DailyLine(message, date)
  {
    PerformDailyFile(s, EffectsOf(message, date), fault);
  }

  lemma PerformCheckpointAndLog(s: DirState, e: Effects, fault: Option<Fault>)
    ensures var s' := Perform(s, e, fault);
            s'.checkpoint == (if fault.None? || fault == Some(GitAddFailed) || fault == Some(GitCommitFailed)
                              then e.stamp else s.checkpoint)
    ensures var s' := Perform(s, e, fault);
            s.log <= s'.log && |s'.log| <= |s.log| + 1 && (|s'.log| == |s.log| + 1 <==> fault.None?)
  {
    if fault.Some? {
      match fault.value
      case OpenFailed =>
      case WriteFailed =>
      case CheckpointWriteFailed =>
      case GitAddFailed =>
      case GitCommitFailed =>
    }
  }

  /**
   * The checkpoint is replaced by the record's date, whatever it held
   * before, once the line is written; the history grows by one commit
   * exactly when no step fails, and never loses one.
   */
  lemma MaterializeCheckpointAndLog(s: DirState, message: string, date: Time, fault: Option<Fault>)
    ensures var s' := Materialize(s, message, date, fault);
            s'.checkpoint == (if fault.None? || fault == Some(GitAddFailed) || fault == Some(GitCommitFailed)
                              then Written(date) else s.checkpoint)
    ensures var s' := Materialize(s, message, date, fault);
            s.log <= s'.log && |s'.log| <= |s.log| + 1 && (|s'.log| == |s.log| + 1 <==> fault.None?)
  {
    PerformCheckpointAndLog(s, EffectsOf(message, date), fault);
  }

  lemma PerformCommit(s: DirState, e: Effects)
    ensures var s' := Perform(s, e, None);
            var c := s'.log[|s'.log| - 1];
            c.checkpoint == e.stamp && c.daily == s'.daily
            && c.daily[e.name] == ContentOf(s.daily, e.name) + e.line
            && c.message == e.commitMessage && c.authorDate == c.committerDate == e.commitDate
  {
  }

  /**
   * The new commit records the tree after the line and the checkpoint are
   * written, so the checkpoint is written before `git add .` runs.  Its
   * message names the date and not the record's message, and both its
   * dates are the record's RFC 3339 text.
   */
  lemma CommitRecordsWrittenTree(s: DirState, message: string, date: Time)
    ensures var s' := Materialize(s, message, date, None);
            var c := s'.log[|s'.log| - 1];
            c.checkpoint == Written(date) && c.daily == s'.daily
            && c.daily[DailyFileName(date)] == ContentOf(s.daily, DailyFileName(date)) + DailyLine(message, date)
            && c.message == CommitMessage(date) && c.authorDate == c.committerDate == FormatRFC3339(date)
  {
    PerformCheckpointAndLog(s, EffectsOf(message, date), None);
    PerformCommit(s, EffectsOf(message, date));
  }

  /** The daily files and the checkpoint share a directory but never a name. */
  lemma DailyFileIsNotCheckpoint(date: Time)
    ensures DailyFileName(date) != CheckpointFileName
  {
    var name := DailyFileName(date);
    if name == CheckpointFileName {
      assert |DateOnly(date)| == |name| - 4 == 18;
      assert name[|name| - 5] == 'e' && name[|name| - 5] == DateOnly(date)[17];
      DateOnlyShape(date);
      assert false;
    }
  }

  lemma DateOnlyShape(date: Time)
    ensures var d := DateOnly(date); |d| >= 10 ==> d[|d| - 1] != 'e'
  {
    var f := FieldsOf(date);
    DateOnlyText(date);
    FieldsOfValid(date);
    var day := Pad(f.date.day, 2);
    assert DateOnly(date) == (DateText(f.date)[..|DateText(f.date)| - 2]) + day;
    assert IsDigit(day[1]);
  }

  /** Two records go to the same daily file exactly when they fall on the same local day. */
  lemma SameDailyFile(a: Time, b: Time)
    requires 0 <= FieldsOf(a).date.year < 10000 && 0 <= FieldsOf(b).date.year < 10000
    ensures DailyFileName(a) == DailyFileName(b) <==> LocalDay(a) == LocalDay(b)
  {
    DateOnlySameDay(a, b);
    if DailyFileName(a) == DailyFileName(b) {
      assert DateOnly(a) == DailyFileName(a)[..|DailyFileName(a)| - 4];
    }
  }

  /**
   * After a successful call, the checkpoint reads back as the record's
   * instant when that instant is well-formed.
   */
  lemma MaterializeReadBack(s: DirState, message: string, date: Time, now: Time)
    requires WellFormed(date)
    ensures GetLastRecordedDate(Materialize(s, message, date, None).checkpoint, now) == Ok(date)
  {
    MaterializeCheckpointAndLog(s, message, date, None);
    ExactReadBack(date, now);
  }

  /** The target directory, updated in place by `CreateGitCommit`. */
  class TargetRepo {
    var daily: map<string, string>
    var checkpoint: FileState
    var log: seq<GitCommit>

    function State(): DirState
      reads this
    {
      DirState(daily, checkpoint, log)
    }

    /**
     * `CreateGitCommit`: open or create the day's file, append the line,
     * write the checkpoint, `git add .`, `git commit`; the first failing
     * step ends the call.
     */
    method CreateGitCommit(message: string, date: Time, fault: Option<Fault>) returns (ok: bool)
      modifies this
      ensures ok <==> fault.None?
      ensures State() == Materialize(old(State()), message, date, fault)
    {
      var e := EffectsOf(message, date);
      var name := e.name;
      if fault == Some(OpenFailed) {
        return false;
      }
      if name !in daily {
        daily := daily[name := ""];
      }
      if fault == Some(WriteFailed) {
        return false;
      }
      ghost var present := daily;
      daily := daily[name := daily[name] + e.line];
      assert daily == old(daily)[name := ContentOf(old(daily), name) + e.line] by {
        assert present[name] == ContentOf(old(daily), name);
      }
      if fault == Some(CheckpointWriteFailed) {
        return false;
      }
      checkpoint := e.stamp;
      if fault.Some? {
        // `git add .` or `git commit` failed
        return false;
      }
      log := log + [CommitOf(e, State())];
      return true;
    }

    /** `SetLastRecordedDate`, taken to overwrite the checkpoint as `CreateGitCommit` does. */
    method SetLastRecordedDate(date: Time, failed: bool) returns (ok: bool)
      modifies this
      ensures ok <==> !failed
      ensures State() == SetCheckpoint(old(State()), date, failed)
    {
      if failed {
        return false;
      }
      checkpoint := Written(date);
      return true;
    }
  }
}
