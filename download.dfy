/**
 * Request validation, download-folder choice and downloader command selection
 * of the `/download` route (`download_media`).
 */
module Download {
  import opened Wrappers
  import opened Text

  /** `BASE_DOWNLOAD_FOLDER`: the root of the per-session folders of anonymous callers. */
  const BaseDownloadFolder := "/app/downloads"

  /** `AUDIO_DOWNLOAD_PATH`: the environment's value, or the base folder when it is unset. */
  function AudioDownloadPath(env: Option<string>): string {
    match env
    case Some(p) => p
    case None => BaseDownloadFolder
  }

  /** The two external downloaders. */
  datatype Tool = SpotDl | YtDlp

  /** A link that contains "spotify" anywhere goes to spotdl, any other to yt-dlp. */
  function ToolFor(link: string): Tool {
    if Contains(link, "spotify") then SpotDl else YtDlp
  }

  /** The output-path template handed to the tool; the tool fills in the fields. */
  function OutputTemplate(tool: Tool, folder: string): string {
    folder + "/" + FieldTemplate(tool)
  }

  /** The part of the template below the download folder, in each tool's own field syntax. */
  function FieldTemplate(tool: Tool): (r: string)
    ensures |r| > 7
  {
    match tool
    case SpotDl => "{artist}/" + "{album}/" + "{track-number}" + " - " + "{title}" + ".{output-ext}"
    case YtDlp => "%(uploader|artist)s/" + "%(album|playlist)s/" + "%(playlist_index)s" + " - " + "%(title)s" + ".%(ext)s"
  }

  function CommandFor(tool: Tool, folder: string, link: string): seq<string> {
    match tool
    case SpotDl => ["spotdl", "--output", OutputTemplate(tool, folder), link]
    case YtDlp => ["yt-dlp", "-x", "--audio-format", "mp3", "-o", OutputTemplate(tool, folder), link]
  }

  /** The output template begins with the download folder and a slash. */
  lemma TemplateRooted(tool: Tool, folder: string)
    ensures StartsWith(OutputTemplate(tool, folder), folder + "/")
  {
    var p := folder + "/";
    var x := FieldTemplate(tool);
    assert (p + x)[..|p|] == p;
  }

  lemma CommandShape(tool: Tool, folder: string, link: string)
    ensures var c := CommandFor(tool, folder, link);
      |c| > 2 && c[|c| - 1] == link && StartsWith(c[|c| - 2], folder + "/")
      && (tool == SpotDl ==> |c| == 4 && c[0] == "spotdl" && c[1] == "--output")
      && (tool == YtDlp ==>
            |c| == 7 && c[0] == "yt-dlp" && c[1] == "-x" && c[2] == "--audio-format" && c[3] == "mp3" && c[4] == "-o")
  {
    var t := OutputTemplate(tool, folder);
    var c := CommandFor(tool, folder, link);
    TemplateRooted(tool, folder);
    assert c[|c| - 2] == t && c[|c| - 1] == link;
  }

  /** The streaming response `download_media` opens: what `generate` is called with. */
  datatype Plan = Plan(isAdmin: bool, command: seq<string>, folder: string, sessionId: string)

  /** A JSON error response `{"status": "error", "output": ...}` with its HTTP status. */
  datatype ErrorResponse = ErrorResponse(status: nat, output: string)

  /**
   * `download_media`: `link` is the `spotify_link` query argument (None when
   * absent), `loggedIn` is `is_logged_in()`, `sessionId` the fresh
   * `uuid4` string and `audioEnv` the `AUDIO_DOWNLOAD_PATH` environment
   * variable as read at start-up (None when unset).
   */
  function DownloadMedia(link: Option<string>, loggedIn: bool, sessionId: string, audioEnv: Option<string>)
    : (r: Result<Plan, ErrorResponse>)
    ensures r.Err? <==> link == None || link == Some("")
    ensures r.Err? ==> r.error == ErrorResponse(400, "No link provided")
    ensures r.Ok? ==> r.value.isAdmin == loggedIn && r.value.sessionId == sessionId
    ensures r.Ok? ==> r.value.folder == if loggedIn then AudioDownloadPath(audioEnv) else Join(BaseDownloadFolder, sessionId)
    ensures r.Ok? ==> r.value.command == CommandFor(ToolFor(link.value), r.value.folder, link.value)
  {
    match link
    case None => Err(ErrorResponse(400, "No link provided"))
    case Some(l) =>
      if l == "" then Err(ErrorResponse(400, "No link provided"))
      else
        var folder := if loggedIn then AudioDownloadPath(audioEnv) else Join(BaseDownloadFolder, sessionId);
        var tool := ToolFor(l);
        var command := CommandFor(tool, folder, l);
        Ok(Plan(loggedIn, command, folder, sessionId))
  }

  /**
   * The argument list of an accepted request: the link is the last argument,
   * after the output template rooted at the chosen folder; a link containing
   * "spotify" gets the four spotdl arguments and any other the seven yt-dlp ones.
   */
  lemma DownloadCommand(link: string, loggedIn: bool, sessionId: string, audioEnv: Option<string>)
    requires link != ""
    ensures var r := DownloadMedia(Some(link), loggedIn, sessionId, audioEnv);
      r.Ok? && var c := r.value.command;
      |c| > 2 && c[|c| - 1] == link && StartsWith(c[|c| - 2], r.value.folder + "/")
      && (Contains(link, "spotify") ==> |c| == 4 && c[0] == "spotdl" && c[1] == "--output")
      && (!Contains(link, "spotify") ==>
            |c| == 7 && c[0] == "yt-dlp" && c[1] == "-x" && c[2] == "--audio-format" && c[3] == "mp3" && c[4] == "-o")
  {
    var r := DownloadMedia(Some(link), loggedIn, sessionId, audioEnv);
    CommandShape(ToolFor(link), r.value.folder, link);
  }

  /**
   * With `AUDIO_DOWNLOAD_PATH` unset, an admin downloads straight into
   * /app/downloads, and an anonymous caller, whose session id is a `uuid4`
   * string and so has no slash, into the session's own folder directly below it.
   */
  lemma DefaultFolders(link: string, loggedIn: bool, sessionId: string)
    requires link != "" && forall k :: 0 <= k < |sessionId| ==> sessionId[k] != '/'
    ensures var r := DownloadMedia(Some(link), loggedIn, sessionId, None);
      r.Ok? && r.value.folder == if loggedIn then BaseDownloadFolder else BaseDownloadFolder + "/" + sessionId
  {
    if |sessionId| > 0 {
      assert sessionId[..1][0] == sessionId[0];
    }
    var p := BaseDownloadFolder;
    assert p[|p| - 1..] == "s";
  }

  /**
   * `"spotify" in command` is list membership: it holds only when some
   * argument is exactly "spotify", which happens for no yt-dlp command and
   * for the spotdl command only when the link itself is "spotify".
   */
  lemma SpotifyArgument(link: string, folder: string)
    ensures "spotify" in CommandFor(ToolFor(link), folder, link) <==> link == "spotify"
  {
    var tool := ToolFor(link);
    var t := OutputTemplate(tool, folder);
    if link == "spotify" {
      assert OccursAt(link, "spotify", 0);
      assert CommandFor(tool, folder, link) == ["spotdl", "--output", t, link];
    } else if tool == SpotDl {
      assert CommandFor(tool, folder, link) == ["spotdl", "--output", t, link];
    } else {
      assert CommandFor(tool, folder, link) == ["yt-dlp", "-x", "--audio-format", "mp3", "-o", t, link];
    }
  }
}
