/** The choice of the target file in main.c: the command-line argument,
    else the path from the configuration, else a file in a temporary
    directory taken from the environment. The program arguments, the
    configured path and the two environment variables are parameters
    (`None` for a variable that is not set). */
module TargetPath {
  import opened Common

  /** MAX_PATH_LEN: the size of the buffer the path is written into. */
  const MaxPathLen: nat := 512

  const TempFileName: string := "mobpaint_temp.dat"

  /** What `snprintf(buf, MAX_PATH_LEN, ...)` leaves in the buffer: the
      formatted text, cut after MAX_PATH_LEN - 1 characters so that the
      terminator fits. */
  function Snprintf(s: string): (r: string)
    ensures |r| < MaxPathLen && r <= s
    ensures |s| < MaxPathLen ==> r == s
    ensures |s| >= MaxPathLen ==> |r| == MaxPathLen - 1
  {
    if |s| < MaxPathLen then s else s[..MaxPathLen - 1]
  }

  /** The temporary directory: MOBPAINT_TMPDIR if it is set (even to the
      empty string), else TMPDIR if it is set, else "/tmp/". */
  function TempDir(mobpaintTmpdir: Option<string>, tmpdir: Option<string>): (dir: string)
    ensures mobpaintTmpdir.Some? ==> dir == mobpaintTmpdir.value
    ensures mobpaintTmpdir.None? && tmpdir.Some? ==> dir == tmpdir.value
    ensures mobpaintTmpdir.None? && tmpdir.None? ==> dir == "/tmp/"
  {
    match mobpaintTmpdir
    case Some(d) => d
    case None => match tmpdir
      case Some(d) => d
      case None => "/tmp/"
  }

  /** The temporary file in `dir`, before truncation: the file name follows
      `dir` after exactly one '/', which is added unless `dir` already ends
      with one (so the empty directory gives "/mobpaint_temp.dat"). */
  function JoinTempFile(dir: string): (path: string)
    ensures |path| > |TempFileName| && path[|path| - |TempFileName|..] == TempFileName
    ensures var d := path[..|path| - |TempFileName|];
      |d| > 0 && d[|d| - 1] == '/' &&
      d == (if |dir| > 0 && dir[|dir| - 1] == '/' then dir else dir + "/")
  {
    if |dir| > 0 && dir[|dir| - 1] == '/' then dir + TempFileName
    else dir + "/" + TempFileName
  }

  /** The target path main hands to run_app. An argument (argc > 1) wins
      over everything; then a non-empty configured path; then the temporary
      file. Every branch goes through snprintf, so the result is at most
      511 characters and is the chosen text or its first 511 characters. */
  function SelectTargetPath(args: seq<string>, configTarget: string,
                            mobpaintTmpdir: Option<string>, tmpdir: Option<string>): (path: string)
    ensures |path| < MaxPathLen
    ensures |args| > 1 ==> path == Snprintf(args[1])
    ensures |args| <= 1 && |configTarget| > 0 ==> path == Snprintf(configTarget)
    ensures |args| <= 1 && |configTarget| == 0 ==>
      path == Snprintf(JoinTempFile(TempDir(mobpaintTmpdir, tmpdir)))
  {
    if |args| > 1 then Snprintf(args[1])
    else if |configTarget| > 0 then Snprintf(configTarget)
    else Snprintf(JoinTempFile(TempDir(mobpaintTmpdir, tmpdir)))
  }

  /** With nothing given and no variable set, the target is
      "/tmp/mobpaint_temp.dat"; a set but empty variable gives the file at
      the root, "/mobpaint_temp.dat"; a directory without a trailing slash
      gets one. */
  lemma DefaultTargets(args: seq<string>)
    requires |args| <= 1
    ensures SelectTargetPath(args, "", None, None) == "/tmp/" + TempFileName
    ensures SelectTargetPath(args, "", Some(""), Some("/var/tmp")) == "/" + TempFileName
    ensures SelectTargetPath(args, "", None, Some("/var/tmp")) == "/var/tmp" + "/" + TempFileName
  {
  }

  /** A temporary directory short enough leaves the whole file name in the
      buffer: the path ends with "/mobpaint_temp.dat". */
  lemma ShortTempDirKeepsFileName(args: seq<string>, mobpaintTmpdir: Option<string>, tmpdir: Option<string>)
    requires |args| <= 1
    requires |TempDir(mobpaintTmpdir, tmpdir)| + 1 + |TempFileName| < MaxPathLen
    ensures var path := SelectTargetPath(args, "", mobpaintTmpdir, tmpdir);
      |path| > |TempFileName| && path[|path| - |TempFileName|..] == TempFileName &&
      path[|path| - |TempFileName| - 1] == '/'
  {
    var path := JoinTempFile(TempDir(mobpaintTmpdir, tmpdir));
    assert SelectTargetPath(args, "", mobpaintTmpdir, tmpdir) == path;
  }
}
