# A verified model of the download server's decision logic

The server is a small Flask application (`app/main.py`). It downloads music with
one of two external tools and streams the tool's progress to the browser as
server-sent events. An anonymous caller gets the files in a per-request folder,
either as one file or as a zip archive. A logged-in admin gets them in the
configured library folder. This project models the parts of that program that
decide what happens, with the outside world given as inputs:

- `Download` (`download.dfy`) models `download_media`. It rejects a missing or
  empty link. It chooses the download folder. It builds the argument list for
  `spotdl` when the link contains "spotify" and for `yt-dlp` otherwise.
- `Stream` (`stream.dfy`) models the generator `generate`.
  - The process is described by a `World`: the launch error (if any), the
    start time, the loop turns, the exit code, the drained lines, and what
    `os.walk` lists.
  - `Stream` is the specification of one run. It gives the exact event
    strings, how the run ends, the folders renamed, the archive entries and
    whether deletion is scheduled.
  - The method `Generate` computes the same result with the source's loops:
    the polling loop, the drain loop, the zip loop and the nested rename
    loop. It is proved equal to `Stream`.
  - The declarative lemmas describe the polling loop: which lines are
    relayed, when it stalls, and which album name it ends with.
- `Patterns` (`patterns.dfy`) is a matcher for the two regular expressions of
  line 102. It follows the backtracking order of Python's `re.search`, and is
  proved to return the match that search selects.
- `Quoting` (`quoting.dfy`) models `urllib.parse.quote` with full UTF-8
  (section 2.1 of RFC 3986 for the percent-encoding, RFC 3629 for UTF-8).
  It also models the decoding that takes a quoted name back.
- `Sessions` (`sessions.dfy`) models the admin session table as a class with
  a map field. `login` and `logout` are methods that update it, and
  `is_logged_in` is the predicate `IsLoggedIn`: map membership of the cookie's
  id.
- `Serve` (`serve.dfy`) models the filename guard of `serve_download`.
- `Text` (`text.dfy`) holds the Python string operations used above:
  `strip`, substring `in`, `startswith`/`endswith`, ASCII `lower`, `replace`,
  `str(int)` and POSIX `os.path.join`.

Where the code and its own description differ, the model follows the code:

- After a stall the process is not polled after the kill, so
  `returncode` is None. The stream therefore carries the stall error, then
  the drained lines, then a second error, "exited with code None"
  (`Stream.StreamAfterStall`).
- The rename guard `"spotify" in command` tests list membership, not a
  substring. An admin's spotdl download of a real Spotify link still renames
  `" - topic"` folders (`Stream.SpotdlAdminStillRenames`).
- Lines read in the drain loop are relayed but never change the album name.
- An anonymous download that stalls, exits with a code other than 0 or leaves no audio file is never scheduled for deletion. The early return at lines 119-121 (no audio file) and the else branch at lines 150-151 (a code other than 0, None after a stall included) both skip the scheduling at lines 148-149, which only follows a delivery. Only the periodic sweeper removes such a folder (`Stream.DeletionIffAnonymousDelivery`).
- `replace` removes every occurrence of `" - topic"`, not only the suffix
  (`Stream.TopicRenameAll`).

## Model

| member | source | states |
|---|---|---|
| Download.DownloadMedia | app/main.py:62-86 | A missing or empty link is an error response 400 "No link provided", and no plan is built. Otherwise the caller's login state is the admin flag and the session id is kept. The folder is `AUDIO_DOWNLOAD_PATH` (or /app/downloads when it is unset) for an admin, and the session folder under /app/downloads otherwise. The command is the chosen tool's argument list for that folder and link. |
| Download.DownloadCommand | app/main.py:72-83 | For an accepted link, the link is the last argument, after a template that starts with the folder and a slash. A link containing "spotify" gets the 4-argument spotdl list, and any other link the 7-argument yt-dlp list. |
| Download.DefaultFolders | app/main.py:13-14 | With `AUDIO_DOWNLOAD_PATH` unset an admin downloads into /app/downloads itself, and an anonymous caller with a slash-free session id into /app/downloads/<id>. |
| Download.TemplateRooted | app/main.py:75-81 | The output template starts with the download folder and a slash. |
| Download.CommandShape | app/main.py:72-83 | `CommandFor`, the argument list of each tool: both lists end with the link, preceded by an output template rooted at the folder, and have the exact length and leading arguments of their tool. |
| Download.SpotifyArgument | app/main.py:124 | The list-membership test "spotify" in command holds exactly when the link is the string "spotify" itself. |
| Text.StripSlice | app/main.py:99 | `Strip` (`str.strip`): the stripped line is a slice of the line, with only whitespace cut off at both ends. |
| Text.StripEnds | app/main.py:99 | A non-empty stripped line neither starts nor ends with whitespace. |
| Text.NatToString | app/main.py:151 | `str` of a natural number is a non-empty string of decimal digits, with no leading zero. |
| Text.NatToStringValue | app/main.py:151 | Reading those digits back gives the number. |
| Text.Join | app/main.py:116 | `os.path.join(a, b)` ends with `b`. |
| Text.ReplaceAbsent | app/main.py:128 | `ReplaceAll` (`str.replace`) leaves a string without the pattern unchanged. |
| Text.ReplaceSuffix | app/main.py:128 | For an unbordered pattern, `ReplaceAll` on base + pattern (with the pattern absent from base) gives base + replacement. |
| Patterns.LazyEndCorrect | app/main.py:102 | The lazy group `(.+?)` ends at the first position after which the closing text follows, never across a newline, or fails when there is no such position. |
| Patterns.TryMidCorrect | app/main.py:102 | Mid followed by the lazy group gives the group start right after Mid and the shortest capture, or reports that Mid is absent or no capture exists. |
| Patterns.TryDigitsCorrect | app/main.py:102 | The greedy `\d+`, backtracking from the longest digit run, finds the match with the latest group start and then the shortest group, or reports that none exists. |
| Patterns.MatchFromCorrect | app/main.py:102 | At a given start position: the match with the latest group start and the shortest group, or none at all. |
| Patterns.SearchFromCorrect | app/main.py:102 | From a given position on: the leftmost start with a match, and there the selected group bounds, or no match anywhere. |
| Patterns.SearchCorrect | app/main.py:102 | `Search`, which is `re.search` plus `group(1)`: None exactly when the pattern matches nowhere; otherwise the group of the selected match (leftmost start, greedy digits, shortest group). |
| Patterns.AlbumCapturePrecedence | app/main.py:102 | `AlbumCapture`, the `or` of the two searches: the "Found N songs in" pattern wins whenever it matches; when it matches nowhere, the capture is the "Downloading playlist" pattern's. There is no capture exactly when neither pattern matches. |
| Patterns.SummaryMatches | app/main.py:102 | "Found 3 songs in Mix (x)" matches the first pattern at 0 with the group spanning "Mix". |
| Patterns.SummarySelected | app/main.py:102 | On "Found 3 songs in Mix (x)" no other match than that one is the selected one. |
| Patterns.FoundSongsExample | app/main.py:102 | The album captured from "Found 3 songs in Mix (x)" is "Mix". |
| Quoting.Quote | app/main.py:143 | The quoted path is built only from unreserved characters, `%` and upper-case hexadecimal digits. |
| Quoting.UnquoteQuote | app/main.py:143 | Percent-decoding a quoted path gives the path back. |
| Quoting.QuotePlain | app/main.py:143 | A path of unreserved characters is quoted as itself. |
| Quoting.DecodeEncoded | app/main.py:143 | Strict UTF-8 decoding of a string's encoding gives the string. |
| Stream.ValidAudioFiles | app/main.py:116-117 | The filtered file list is no longer than the walk's list. |
| Stream.ValidAudioFilesCount | app/main.py:117 | Every file whose lower-cased full path ends in .mp3, .m4a, .flac, .wav or .ogg is kept as often as it was found; nothing else is kept. |
| Stream.ValidAudioFilesAppend | app/main.py:117 | The filter keeps walk order: it distributes over concatenation. |
| Stream.Classify | app/main.py:115-151 | A return code other than 0 (None included) ends the run with the exit-code error, whatever the files. With 0: no audio files means the no-audio error. An admin's files stay in place. An anonymous caller with one file gets that file, and with several gets the album-named archive of all valid files in walk order. |
| Stream.RunStaysStalled | app/main.py:108 | Once the loop has stalled, later turns change nothing: the loop was left. |
| Stream.Poll | app/main.py:95-108 | The polling loop computes the specified loop state: album, time of last output, events, and whether it stalled. |
| Stream.PlanTopicRenames | app/main.py:124-130 | The nested rename loops perform the specified renames, in walk order. |
| Stream.ArchiveEntries | app/main.py:135-139 | The zip gets one entry per valid audio file, in order. |
| Stream.Finish | app/main.py:115-151 | After draining: the outcome is the classification. The terminal events are the outcome's. Renames happen only for an admin's in-place success when no argument is "spotify". Deletion is scheduled exactly for an archive or single-file delivery. |
| Stream.Generate | app/main.py:88-153 | One run of the generator produces exactly `Stream(plan, w)`, the specification of `generate` that the declarative lemmas below describe. A launch error gives the single "Error: message" event. |
| Stream.RunWithoutStall | app/main.py:95-108 | Without a stall, the loop emits one stripped event per non-empty line, in read order, and nothing else. It ends with the album of the last naming line and the time of the last output. |
| Stream.RunStalls | app/main.py:105-108 | At the first silent turn longer than 300 seconds, the loop emits the lines before it and then the stall error, and stops. |
| Stream.StalledIffSilent | app/main.py:105 | The loop stalls exactly when some empty read comes more than 300 seconds after the last output (or the start). |
| Stream.AlbumAfterPrefix | app/main.py:102-104 | Turns that name no album leave the album name unchanged. |
| Stream.AlbumOfLastNamingLine | app/main.py:102-104 | The final album name is the stripped capture of the last line that matches either pattern. |
| Stream.AlbumDefault | app/main.py:89 | When no line matches, the album name stays "playlist". |
| Stream.StreamAfterStall | app/main.py:105-151 | After a stall, the stream is the lines before it, the stall error, the drained lines and "exited with code None". Nothing is delivered, renamed or deleted. |
| Stream.StreamWithoutStall | app/main.py:95-151 | Without a stall, the stream is every non-empty line, then every drained line, then the outcome's events. The outcome is classified with the real return code and the last captured album. |
| Stream.StreamOnFailedExit | app/main.py:150-151 | A non-zero exit gives exactly one exit-code event after the lines, with no classification, renaming or deletion. |
| Stream.DeliveryShape | app/main.py:132-149 | With audio files after a clean exit: anonymous with several files gets "DOWNLOAD: session/album.zip" and the archive of all of them; anonymous with one file gets "DOWNLOAD: session/quoted path"; an admin gets the two completion events. Deletion is scheduled exactly when the caller is not admin. |
| Stream.DeletionIffAnonymousDelivery | app/main.py:148-149 | The folder is scheduled for deletion exactly when an anonymous caller's unkilled process exited with 0 and left audio files. |
| Stream.SingleDeliveryDecodes | app/main.py:141-143 | A single-file delivery ends with the quoted relative path, which decodes back to the path. |
| Stream.CompleteOnlyInPlace | app/main.py:144-146 | The stream ends with its outcome's events, and the completion event is among them exactly for an admin's in-place success. |
| Stream.SpotdlAdminStillRenames | app/main.py:124 | For an admin's spotdl download of a link that contains "spotify" but is not "spotify", the guard passes and the topic folders are renamed. |
| Stream.LiteralSpotifyLinkRenamesNothing | app/main.py:124 | The admin download of the link "spotify" renames nothing. |
| Stream.RenamesOnlyInPlace | app/main.py:119-129 | Only an admin's successful download with audio files renames anything. |
| Stream.RenamesInSuffixed | app/main.py:125-129 | Each rename is of a sub-folder whose name ends with " - topic", to that name with the text replaced, within the same root. |
| Stream.RenamesInComplete | app/main.py:125-129 | Every " - topic" sub-folder of a walk step is renamed within that step's root. |
| Stream.RenamesInCount | app/main.py:125-129 | A walk step plans exactly one rename per " - topic" sub-folder name. |
| Stream.RenamesInAppend | app/main.py:125-129 | The renames of a walk step follow the order of its sub-folder names. |
| Stream.TopicRenamesAppend | app/main.py:125-129 | The renames of a walk follow the order of its steps. |
| Stream.TopicRenamesComplete | app/main.py:125-129 | Every " - topic" sub-folder of every walk step is renamed, within the root of its step. |
| Stream.TopicRenamesSound | app/main.py:125-129 | Every rename of a walk is of a " - topic" sub-folder of one of its steps, within that step's root. |
| Stream.TopicRenameOfSuffixed | app/main.py:127-128 | A name ending in " - topic", with the text nowhere else, loses exactly that suffix. |
| Stream.TopicRenameAll | app/main.py:128 | "A - topic - topic" is renamed to "A": every occurrence goes. |
| Sessions.SessionTable.constructor | app/main.py:19 | The table starts empty, with the configured user name and password. |
| Sessions.SessionTable.IsLoggedIn | app/main.py:45-47 | The request is logged in exactly when it carries a cookie whose id is a key of the table. In a valid table that session belongs to the configured user name. |
| Sessions.SessionTable.Login | app/main.py:32-43 | When both fields equal the configured pair: success, the fresh id is mapped to the user name and set as the cookie. Otherwise: 401 and the table is unchanged. Every session stays owned by the admin name. |
| Sessions.SessionTable.Logout | app/main.py:49-56 | The cookie's id is removed when present; otherwise nothing changes. Afterwards the cookie is not logged in, and the answer is a success that clears the cookie. |
| Sessions.LoginThenLogout | app/main.py:32-56 | A login under an unused id followed by a logout with it restores the table. |
| Sessions.WrongPasswordStaysLoggedOut | app/main.py:37-43 | A wrong password leaves the table unchanged and the id logged out. |
| Serve.ServeDownload | app/main.py:171-179 | A name containing ".." anywhere or starting with "/" gets 400 "Invalid filename", and only such names do. A valid name whose full path is not a file gets 404. Otherwise the file is sent from the session folder. |
| Serve.RejectedBeforeFileTest | app/main.py:175-177 | The answer to an invalid name does not depend on the file system. |
| Serve.AcceptedStaysInFolder | app/main.py:173-175 | An accepted non-empty name is relative and contains no "..". Its full path is the session folder, a slash, and the name. |
| Serve.SessionFolderUnchecked | app/main.py:171-179 | The guard looks at the file name only: with the session id "..", the name "main.py" passes, its full path is /app/downloads/../main.py, and it is sent from /app/downloads/.. when that is a file. |
| Serve.DoubleDotInsideRefused | app/main.py:175 | "a..b.mp3" is refused with 400. |
| Serve.PlainNameAccepted | app/main.py:175-179 | "a.zip" passes the guard and, when it is a file, is sent. |

## Left out

- Flask routing, static files, JSON parsing and cookie plumbing are framework glue. The login fields are modelled as optional strings; a body that is not JSON, or fields that are not strings, are not modelled.
- `subprocess.Popen`, `readline` and `kill` are replaced by the `World` input:
  - the launch error;
  - the loop turns, each with its line and the time read;
  - the exit code and the drained lines.
- Exceptions raised after the launch are not modelled; only a launch failure reaches the catch-all. These include:
  - `readline`, or iterating the pipe in text mode, failing on output it cannot decode (lines 96 and 111);
  - `zipfile` raising FileNotFoundError when the album name contains "/" (lines 133-135, for example a playlist "AC/DC"). There the model announces an archive the program never builds;
  - `quote` raising UnicodeEncodeError on a file name with surrogate escapes (line 143).
- Stream.StalledIffSilent is not an idle-time watchdog. `readline()` blocks until a line or end of file (line 96). So an empty read, the only way to reach the 300-second test (line 105), happens only once standard output is at end of file while `poll()` still reports the process as running. A downloader that goes quiet with its pipe open is never killed, and the turns of `World` describe only the reads that did return.
- Stream.StreamAfterStall: the model always uses return code None after a stall. If the process exits between the loop's `poll()` and `kill()`, `kill()` sends no signal, `returncode` holds the real code, and the finish after the stall event is classified with that code.
- The file system is an input:
  - the files and sub-folders `os.walk` reports;
  - for `serve_download`, the `isFile` test.
  `os.makedirs`, how `os.walk` behaves after renaming a folder mid-walk, and rename collisions are not modelled.
- The zip format and DEFLATE compression are left out; only the archive name, path and entry names are kept.
- `os.path.relpath` is not modelled: the walk's file names are already folder-relative, so the relative path is that name.
- `delayed_delete` and the periodic sweeper are threads with sleeps; only the decision to schedule deletion is modelled.
- `uuid.uuid4` is a parameter (the session id), and `print` logging is omitted.
- `time.time()` and the 300-second limit are real numbers; floating-point rounding is not modelled.
- Stream.IsAudioFile: `str.lower()` is modelled for ASCII letters only, because full Unicode case mapping is beyond this model.
- Patterns.Search: `\d` is modelled as the ASCII digits, not every Unicode decimal digit.
- Quoting.Unquote: this is strict UTF-8 decoding. Python's `unquote` replaces malformed bytes instead of failing, which matters only for strings `quote` never produces.
- Sessions.SessionTable.Login: the fresh id is not required to be unused, and a repeated id simply maps to the admin name again. Only `Sessions.LoginThenLogout` needs an unused id.
