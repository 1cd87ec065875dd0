/**
 * The `/downloads/<session_id>/<path:filename>` route (`serve_download`): a
 * file name containing ".." anywhere, or starting with "/", is refused before
 * the file system is consulted; a name that passes is looked up under the
 * session's folder.
 */
module Serve {
  import opened Text
  import Download

  /** The guard of line 175. */
  predicate InvalidFilename(filename: string) {
    Contains(filename, "..") || StartsWith(filename, "/")
  }

  /** The route's three answers; `Send` carries the folder and name handed to `send_from_directory`. */
  datatype Answer = BadRequest(message: string) | NotFound(message: string) | Send(folder: string, filename: string)

  function StatusOf(a: Answer): nat {
    match a
    case BadRequest(_) => 400
    case NotFound(_) => 404
    case Send(_, _) => 200
  }

  /** The path the route tests with `os.path.isfile`. */
  function FullPath(sessionId: string, filename: string): string {
    Join(Join(Download.BaseDownloadFolder, sessionId), filename)
  }

  /**
   * `serve_download`, with `isFile` standing for `os.path.isfile`. The file
   * test is consulted only for names that pass the guard: an invalid name is
   * refused with 400 whatever the file system holds.
   */
  function ServeDownload(sessionId: string, filename: string, isFile: string -> bool): (a: Answer)
    ensures StatusOf(a) == 400 <==> InvalidFilename(filename)
    ensures InvalidFilename(filename) ==> a == BadRequest("Invalid filename")
    ensures !InvalidFilename(filename) && !isFile(FullPath(sessionId, filename)) ==> a == NotFound("File not found")
    ensures a.Send? <==> !InvalidFilename(filename) && isFile(FullPath(sessionId, filename))
    ensures a.Send? ==> a == Send(Join(Download.BaseDownloadFolder, sessionId), filename)
  {
    var folder := Join(Download.BaseDownloadFolder, sessionId);
    var fullPath := Join(folder, filename);
    if InvalidFilename(filename) then BadRequest("Invalid filename")
    else if !isFile(fullPath) then NotFound("File not found")
    else Send(folder, filename)
  }

  /** The answer to an invalid name does not depend on the file system. */
  lemma RejectedBeforeFileTest(sessionId: string, filename: string, isFile: string -> bool, isFile': string -> bool)
    requires InvalidFilename(filename)
    ensures ServeDownload(sessionId, filename, isFile) == ServeDownload(sessionId, filename, isFile')
  {
  }

  /**
   * A name that passes the guard is relative, and `os.path.join` keeps it
   * below the session folder: the full path is the folder, a slash, then the
   * name, and no ".." segment in the name can climb out of it. The session
   * folder itself is not checked (see `SessionFolderUnchecked`).
   */
  lemma AcceptedStaysInFolder(sessionId: string, filename: string)
    requires !InvalidFilename(filename)
    ensures var folder := Join(Download.BaseDownloadFolder, sessionId);
      !StartsWith(filename, "/") && !Contains(filename, "..")
      && (filename != "" ==> FullPath(sessionId, filename) == (if EndsWith(folder, "/") then folder else folder + "/") + filename)
  {
  }

  /** The guard is a substring test, so an ordinary name with two dots inside it is refused too. */
  lemma DoubleDotInsideRefused(sessionId: string, isFile: string -> bool)
    ensures ServeDownload(sessionId, "a..b.mp3", isFile) == BadRequest("Invalid filename")
  {
    assert OccursAt("a..b.mp3", "..", 1);
  }

  /** A name in which no two neighbouring characters are both dots contains no "..". */
  lemma NoAdjacentDots(f: string)
    requires forall k :: 0 <= k < |f| - 1 ==> f[k] != '.' || f[k + 1] != '.'
    ensures !Contains(f, "..")
  {
    forall i | 0 <= i <= |f| ensures !OccursAt(f, "..", i) {
      if 0 <= i <= |f| - 2 {
        assert f[i..i + 2][0] == f[i] && f[i..i + 2][1] == f[i + 1];
      }
    }
  }

  /** A name with one dot per segment passes the guard. */
  lemma PlainNameAccepted(sessionId: string, isFile: string -> bool)
    requires isFile(FullPath(sessionId, "a.zip"))
    ensures ServeDownload(sessionId, "a.zip", isFile) == Send(Join(Download.BaseDownloadFolder, sessionId), "a.zip")
  {
    var f := "a.zip";
    assert f[1] == '.' && f[0] != '.' && f[2] != '.';
    NoAdjacentDots(f);
    assert f[..1][0] == 'a';
    assert !InvalidFilename(f);
  }

  /**
   * The guard looks at the file name only: with ".." as the session id, a
   * plain name passes and its full path climbs out of /app/downloads.
   */
  lemma SessionFolderUnchecked(isFile: string -> bool)
    ensures !InvalidFilename("main.py")
    ensures FullPath("..", "main.py") == "/app/downloads/../main.py"
    ensures isFile(FullPath("..", "main.py")) ==> ServeDownload("..", "main.py", isFile) == Send("/app/downloads/..", "main.py")
  {
    var f := "main.py";
    assert f[4] == '.' && f[3] != '.' && f[5] != '.';
    NoAdjacentDots(f);
    assert f[..1][0] == 'm';
    assert ".."[..1][0] == '.';
    var p := Download.BaseDownloadFolder;
    assert p[|p| - 1..] == "s";
    assert Join(p, "..") == "/app/downloads/..";
    var q := "/app/downloads/..";
    assert q[|q| - 1..] == ".";
  }
}
