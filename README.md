# flac2lib in Dafny

A model of `flac2lib.py`, a console script that copies chosen FLAC
albums into a music library in another format. A run works like this:

- It reads the command-line options and the YAML configuration, and
  merges them into the settings of the run.
- It then calls `process_album` until the user answers anything but `y`
  to "more albums?". Each call:
  - finds the album folder: the one given with `-s`, or one picked among
    the folders that hold `.flac` files, newest first;
  - learns whether the album is a compilation;
  - picks the songs;
  - resolves the destination directory from the first song's tags and
    the user's answers;
  - optionally copies or downloads cover art;
  - appends the album to a global queue.
- Finally it converts every queued song whose destination file does not
  exist yet.

The model keeps the logic that decides names, paths, choices and which
files get written. The outside world comes in as parameters:

- the directory listings `rglob("*")`;
- the modification times;
- the `mediainfo` tag maps;
- the lines typed on the console;
- the file tree, a map from path to content: paths are only added, and
  only a download replaces the content of an existing file.

The modules follow the script's structure:

- `Common`: `Option`, `Result` and the Python exceptions the script lets
  escape; Python indexing and slicing.
- `Text`: the string methods the script calls (`lower`, `split(',')`,
  `split()`, `strip`, `isnumeric`, `int`, `rfind`).
- `Paths`: POSIX `pathlib` (`/`, `name`, `parent`, `relative_to`,
  `suffix`, `stem`, `rglob`).
- `Tags`: the `TAG` lookups and the tags given to the encoder.
- `Storage`: the file tree and its write-if-absent jobs, plus the
  `FileSystem` class that holds the tree and is updated in place.
- `Settings`: the options and the configuration file.
- `Discovery`: the album folders, the sort by modification time, the
  album and song choices, the compilation question and "more albums?".
- `Destination`: `get_dst_album_path`.
- `CoverArt`: `get_cover_art` and `download_cover_art`.
- `Conversion`: `AlbumToProcess` and `convert_songs`.
- `Session`: `process_album`, the loop of `main` and the `Script` class,
  which holds the global queue.

The imperative parts of the script are kept as methods with loops:

- the collecting loops;
- the option loop;
- the compilation prompt;
- the cover-art command loop;
- the conversion loops;
- the album loop of `main`.

Each method is proved equal to a function, and the properties are proved
about that function.

Where the script's behaviour may be surprising, the model follows the
code:

- Only the `TAG` group of `mediainfo` is consulted; neither `tag` nor
  `Tag` is tried (`Tags.OnlyTagGroupMatters`, `Tags.LowerCaseGroupIgnored`).
- Only the compilation question re-prompts. The album index, the song
  indices and the directory names are read once. A bad index raises
  (`IndexError`/`ValueError`), and a blank name is accepted.
- The album index may be any valid Python index into the sorted list,
  negative ones included. It is not limited to the `num_albums_to_show`
  entries that are printed.
- A blank "more albums?" answer or any other non-`y` answer ends the loop.
- Line 279 tests `not artist_name` where `album_name` is meant. Line 282
  then restarts from the root. So without prompts:
  - an artist tag without an album tag adds no album level;
  - no artist tag with an album tag gives `root/<artist answer>/<album>`;
  - no tag at all gives `root/<album answer>`.

  The model keeps this behaviour as written: see `UnpromptedNoAlbumTag`,
  `UnpromptedNoArtistTag` and `UnpromptedNoTags`.
- With `-d`, `artist_name` and `album_name` are never bound. With cover
  art on, the script therefore raises `UnboundLocalError`
  (`Session.DestinationFlagWithCoverArt`).

Python exceptions that the script does not catch become `Err` results:

- `IndexError` and `ValueError` from bad indices or numbers;
- `EndOfInput` when the console input runs out at a prompt whose
  answers are read as a sequence (see "## Left out" for the others);
- `UnboundLocal` for the case above;
- `OSError` when the cover download cannot be opened for writing.

A run that hits one queues nothing more and converts nothing.

## Model

| member | source | states |
|---|---|---|
| Common.SliceFrom | flac2lib.py:421 | Python `s[i:]`: `s[i..]` for a start inside `s`, empty past the end, the last `-i` elements for a negative start, all of `s` below `-len(s)` |
| Text.Lower | flac2lib.py:149 | `lower()` keeps the length, leaves no upper-case letter, turns each upper-case letter into its lower-case one and keeps every other character |
| Text.LowerIdempotent | flac2lib.py:149 | lowering twice is lowering once |
| Text.YesIsOneLetter | flac2lib.py:149 | `answer.lower() == "y"` holds exactly for `y` and `Y` |
| Text.NoIsOneLetter | flac2lib.py:194 | `answer.lower() == "n"` holds exactly for `n` and `N` |
| Text.SplitOn | flac2lib.py:212 | `split(',')` always gives at least one piece, and no piece contains the separator |
| Text.JoinSplit | flac2lib.py:212 | joining the pieces of `split(sep)` with `sep` gives back the input |
| Text.SplitJoin | flac2lib.py:212 | pieces without the separator are recovered by splitting their join |
| Text.SplitWithoutSeparator | flac2lib.py:212 | a string without the separator splits into itself alone |
| Text.SplitAtFirstSeparator | flac2lib.py:212 | splitting cuts at the first separator, then splits the rest |
| Text.JoinedHasSeparator | flac2lib.py:212 | two or more joined pieces contain the separator |
| Text.WordEnd | flac2lib.py:452 | the leading word ends at the first blank, or at the end of the string |
| Text.SplitWhitespace | flac2lib.py:452 | `split()` of the ffmpeg parameters gives non-empty words without blanks |
| Text.WordEndOfWord | flac2lib.py:452 | a word followed by a blank or by nothing ends exactly where the word ends |
| Text.SplitWhitespaceJoin | flac2lib.py:452 | `split()` of non-empty blank-free words joined by single spaces gives back exactly those words, so the words are the maximal blank-free runs |
| Text.SplitWhitespaceKeepsText | flac2lib.py:452 | `split()` keeps every non-blank character, in order, and drops only blanks |
| Text.TrimStart | flac2lib.py:183 | `lstrip()` is the suffix of `s` left after exactly its leading blanks: everything removed is blank and the first character kept is not |
| Text.TrimEnd | flac2lib.py:183 | `rstrip()` is the prefix of `s` left before exactly its trailing blanks: everything removed is blank and the last character kept is not |
| Text.StripUnpadded | flac2lib.py:183 | a string that neither starts nor ends with a blank is its own `strip()` |
| Text.Decimal | flac2lib.py:183 | `str(n)` of a natural number is numeric text |
| Text.DecimalValue | flac2lib.py:183 | the digits of `str(n)` spell `n` |
| Text.ParseDecimal | flac2lib.py:183 | `int(str(n)) == n` and `int("-" + str(n)) == -n` |
| Text.ParseNumeric | flac2lib.py:359-360 | `int()` of an `isnumeric()` answer is the number its digits spell |
| Text.RFind | flac2lib.py:421 | `rfind` gives -1 exactly when the character is absent; otherwise it gives the last index holding it |
| Paths.Parse | flac2lib.py:72-74 | `Path(s)` is made of non-empty segments without `/` or `.` |
| Paths.Slash | flac2lib.py:255-292 | `p / s` with a relative `s` keeps `p` as a prefix and stays well formed |
| Paths.Concat | flac2lib.py:438-440 | `p / q` of well-formed paths is well formed |
| Paths.Parent | flac2lib.py:165 | `parent` of a well-formed path is well formed |
| Paths.RelativeToInverse | flac2lib.py:350-351 | `relative_to` and `/` are inverse in both directions |
| Paths.ParentOfInside | flac2lib.py:434 | the parent of a path found by `rglob` can be made relative to the folder searched |
| Paths.SlashBlank | flac2lib.py:257 | appending a blank answer or `.` leaves a path unchanged |
| Paths.SlashSegment | flac2lib.py:255 | appending a single segment adds exactly that segment |
| Paths.StrIsSegment | flac2lib.py:433-434 | `str(rel)` equals a segment exactly when `rel` is that one segment |
| Paths.RGlob | flac2lib.py:203 | `rglob("*.flac")` yields exactly the listed paths whose name ends with `.flac` |
| Paths.RGlobCons | flac2lib.py:203 | the first listed path is yielded first exactly when its name matches |
| Paths.RGlobKeepsOrder | flac2lib.py:203 | filtering a listing made of two parts yields the matches of the first part, then those of the second: the traversal order is kept |
| Paths.RGlobSingle | flac2lib.py:203 | a one-path listing yields that path exactly when its name matches |
| Paths.StemSuffix | flac2lib.py:363 | a name is its stem followed by its suffix; the suffix is empty or a dot plus text without dots; the stem of a non-empty name is non-empty |
| Paths.ParseAbsolute | flac2lib.py:72 | parsing `/a/b/...` gives the absolute path of those segments |
| Tags.LookupPriority | flac2lib.py:227-243 | the upper-case tag wins over the lower-case one, and the name is `None` exactly when neither is in the `TAG` group |
| Tags.OnlyTagGroupMatters | flac2lib.py:227-243 | artist and album names depend only on the `TAG` group |
| Tags.LowerCaseGroupIgnored | flac2lib.py:227-232 | groups named `tag` or `Tag` are never read |
| Tags.ExportTags | flac2lib.py:448-450 | the exported tags are the `TAG` group (or none), with `compilation = 1` added for a compilation |
| Tags.CompilationTagExactly | flac2lib.py:448-450 | a file without a `compilation` tag of its own gets one exactly when the album is a compilation |
| Storage.WriteIfAbsent | flac2lib.py:353-355 | a guarded write adds the target, keeps every existing file, and writes only a missing target |
| Storage.RunJobsEffect | flac2lib.py:442-456 | running the jobs keeps every existing file, creates every target, and each new file comes from a job |
| Storage.PerformedOnlyMissing | flac2lib.py:442 | a job writes only when its target was missing before the run |
| Storage.RunJobsWhenAllPresent | flac2lib.py:455-456 | when every target exists, nothing is written |
| Storage.RunJobsIdempotent | flac2lib.py:442 | running the same jobs twice writes nothing the second time |
| Storage.FileSystem.constructor | flac2lib.py:442 | the file tree starts as given |
| Settings.ParseOpts | flac2lib.py:47-84 | the option loop computes `ScanOpts`, returning at the first help option |
| Settings.HelpStops | flac2lib.py:48-66 | after help, no later option is read |
| Settings.HelpWins | flac2lib.py:48-66 | the run goes on exactly when no option asks for help |
| Settings.LastOptionWins | flac2lib.py:67-84 | a later `-s`, `-d`, `-c`, `--compilation` or `--not-compilation` overrides an earlier one; `-n` changes nothing |
| Settings.OptionsSetOneWay | flac2lib.py:69-80 | `-e` and `-l` only turn on; the skip options only turn off |
| Settings.SwitchesSetBy | flac2lib.py:69-80 | a switch is set exactly when its option was given |
| Settings.Merge | flac2lib.py:86-101 | source, destination and compilation come only from the options; the two roots are parsed from the configuration; `num_albums_to_show`, the cover name and suffixes, the format and the ffmpeg parameters are the configuration's values, each in its own field |
| Settings.ConfigOnlyWhenUnset | flac2lib.py:86-97 | a given option wins over the configuration; otherwise the configuration's value is used |
| Discovery.CollectFlacFolders | flac2lib.py:163-166 | the collecting loop computes `FlacFolders` |
| Discovery.FlacFoldersMembers | flac2lib.py:163-166 | a folder is listed exactly when it is the parent of a listed `.flac` file |
| Discovery.FlacFoldersDistinct | flac2lib.py:165 | no folder is listed twice |
| Discovery.FlacFoldersPrefix | flac2lib.py:163-166 | later entries only append to the list |
| Discovery.FlacFoldersSnoc | flac2lib.py:165-166 | one more entry adds at most its own folder, at the end, and only when it is a new `.flac` parent |
| Discovery.FlacFoldersFirstSeen | flac2lib.py:163-166 | the k-th folder is added by a `.flac` entry, after the previous k folders were listed (first-seen order) |
| Discovery.InsertByMtime | flac2lib.py:169-170 | inserting adds exactly one element |
| Discovery.InsertKeepsOrder | flac2lib.py:169-170 | inserting into a newest-first list keeps it newest first |
| Discovery.SortByMtime | flac2lib.py:169-170 | the sort is a permutation of the folders |
| Discovery.SortByMtimeSorted | flac2lib.py:169-170 | the sorted list is newest first and a permutation of the folders |
| Discovery.ChooseAlbum | flac2lib.py:172-183 | with `latest`, the first shown folder, or `IndexError` when none is shown; otherwise `int(answer)` as a Python index, `ValueError` for text that is not a number and `IndexError` off the list |
| Discovery.GetFlacAlbumPath | flac2lib.py:155-183 | `get_flac_album_path` chooses among the collected folders, sorted newest first |
| Discovery.LatestIsNewest | flac2lib.py:172-173 | with `latest` the folder chosen holds a `.flac` file and no such folder is newer; it fails exactly when no entry is a `.flac` file |
| Discovery.ParseAll | flac2lib.py:212 | `[int(x) for x in pieces]` succeeds exactly when every piece parses, with each value in place |
| Discovery.PickSongs | flac2lib.py:203-215 | with `entire`, all files; otherwise the files at the typed indices, in the order typed; any piece that does not parse gives `ValueError` before any index is checked; an index out of range gives `IndexError` |
| Discovery.Range | flac2lib.py:214 | `range(n)` lists `0..n-1` in order |
| Discovery.IndexEveryFile | flac2lib.py:214-215 | indexing by `range(len(all))` gives every file once, in order |
| Discovery.PicksFollowTraversal | flac2lib.py:207-215 | indices refer to the traversal order, not to the sorted names printed |
| Discovery.CompilationAnswerFirst | flac2lib.py:190-195 | the answer is that of the first `y`/`n` line; there is none exactly when no line is `y` or `n` |
| Discovery.AskIfCompilation | flac2lib.py:186-195 | the prompt loop computes `CompilationAnswer` and reads up to that first `y`/`n` line, or every line when there is none |
| Discovery.MoreAlbums | flac2lib.py:148-152 | another album follows exactly after `y` or `Y` |
| Destination.Resolve | flac2lib.py:218-294 | the names returned are the artist and album tags; the directory is well formed under a well-formed root |
| Destination.PromptedDestination | flac2lib.py:245-292 | with prompts: root / chosen artist / chosen album / extra answer |
| Destination.PromptedConfirmBoth | flac2lib.py:254-255 | confirming both proposed names gives root/artist/album |
| Destination.PromptedBlankAddsNothing | flac2lib.py:253-292 | blank answers and no tags leave the root |
| Destination.UnpromptedBothTags | flac2lib.py:258-259 | without prompts and with both tags: root/artist/album, with no answer read |
| Destination.UnpromptedNoAlbumTag | flac2lib.py:277-279 | without prompts and without an album tag, only the artist level is added |
| Destination.UnpromptedNoTags | flac2lib.py:279-282 | without prompts and without tags, the album answer is joined to the root and the artist answer is lost |
| Destination.UnpromptedNoArtistTag | flac2lib.py:260-263 | without prompts and without an artist tag: root / artist answer / album tag |
| Destination.ExtraOnlyWhenPrompted | flac2lib.py:284-292 | the extra answer is read only with prompts; with prompts a blank one leaves the directory at root / artist / album, and a one-segment one adds exactly that level |
| Destination.FooBarExample | flac2lib.py:254-292 | tags `Foo`/`Bar` under root `/out`, confirmed with `y` and `Y` and no extra directory, give `/out/Foo/Bar` |
| CoverArt.CollectImages | flac2lib.py:306-308 | the collecting loop computes `Images` |
| CoverArt.ImagesMembers | flac2lib.py:306-308 | an image is found exactly when it is listed and its name ends with a dot and a configured suffix |
| CoverArt.ClassifyCases | flac2lib.py:341-384 | each command is chosen by exactly the answers that the tests, in order, let through: empty raises `IndexError`, bad numbers raise `ValueError`, anything else is ignored |
| CoverArt.MainTargetShape | flac2lib.py:361-363 | the main cover lands directly in the destination as the default name plus the image's suffix |
| CoverArt.MiscTargetShape | flac2lib.py:350-351 | an additional image keeps its relative place and name under the destination |
| CoverArt.DownloadNameCases | flac2lib.py:420-421 | the download takes the link text from its last dot; without a dot, only its last character |
| CoverArt.SearchArtist | flac2lib.py:400-405 | the answer `y` or `Y` keeps the proposed artist, a blank answer searches without an artist, any other answer is the artist |
| CoverArt.Search | flac2lib.py:408-412 | the query always names the album and names the artist exactly when one is searched for |
| CoverArt.DownloadCoverArt | flac2lib.py:389-425 | the artist answer opens the search; the link answer writes the download target when it lies directly in the destination folder, and raises `OSError` otherwise; the input running out raises; a raise writes nothing |
| CoverArt.DownloadOpensWhen | flac2lib.py:419-422 | a download name that is one segment is written in the destination; a name `a/b` (a link without an extension) raises |
| CoverArt.Step | flac2lib.py:339-385 | one pass of the command loop that goes on leaves fewer answers unread; the lemmas below give each command's effect (a download reads three answers) |
| CoverArt.StepCopyMain | flac2lib.py:359-371 | an all-digit answer `n` below the image count copies image `n` to the main cover target unless it exists; a missing target outside the destination folder (the only one line 366 creates) raises `OSError`; a larger `n` raises `IndexError` |
| CoverArt.MainCopyOpensWhen | flac2lib.py:361-367 | a one-segment default name puts the main cover directly in the destination; a default name `a/b` puts it in a folder not created, so the copy raises |
| CoverArt.TwoSegmentsBelow | flac2lib.py:363-367 | a name `a/b` of two segments is a file one folder below the path it is joined to, not directly inside it |
| CoverArt.StepCopyMisc | flac2lib.py:348-358 | `c<n>` copies image `n` (Python index) to its mirrored target unless it exists; out of range raises `IndexError`, an image outside the album folder `ValueError` |
| CoverArt.StepDownload | flac2lib.py:377-379 | `d` reads the artist and the link, opens the search, writes the download and goes on after the link; missing answers raise `EndOfInput`, a target it cannot open `OSError` |
| CoverArt.StepQuit | flac2lib.py:384-385 | `q` ends the loop without an error and without changes |
| CoverArt.StepLeavesFiles | flac2lib.py:339-376 | `h`, an in-range preview and an answer that is no command change nothing and read the next answer |
| CoverArt.StepRaises | flac2lib.py:340-349 | an empty answer raises `IndexError`, `p`/`c` without an integer `ValueError`, a preview out of range `IndexError` |
| CoverArt.CopyFirstThenQuit | flac2lib.py:339-385 | with a one-segment default name, answering `0` then `q` copies the first image to the main cover name and ends |
| CoverArt.CoverEffectTrans | flac2lib.py:339-385 | the allowed changes compose across passes |
| CoverArt.CopyEffect | flac2lib.py:353-367 | a copy of a found image to its target keeps every existing file |
| CoverArt.DownloadEffect | flac2lib.py:378-379 | a download writes only its own target and opens a search naming the album |
| CoverArt.StepEffect | flac2lib.py:339-385 | one pass changes files only by copies of found images or downloads |
| CoverArt.CoverLoopEffect | flac2lib.py:339-386 | the command loop only copies found images to their targets or downloads to the download target, and every search names the album |
| CoverArt.CopiesNeverOverwrite | flac2lib.py:353-371 | without `d`, no existing file is changed and no search is opened |
| CoverArt.NoImagesFallThrough | flac2lib.py:318-341 | with no image and an answer other than `y`/`n`, an index command raises `IndexError` |
| CoverArt.CommandLoop | flac2lib.py:339-386 | the loop on the file system computes `CoverLoop` |
| CoverArt.GetCoverArt | flac2lib.py:297-386 | `get_cover_art` on the file system computes `CoverArtStep` on the images found |
| Conversion.SongFolder | flac2lib.py:434 | a song's folder relative to the album is the relative path of exactly the folders between the album folder and the song |
| Conversion.SongFileNameIsSegment | flac2lib.py:436 | the stem, a dot and the format make one non-empty segment |
| Conversion.SongDestinationParts | flac2lib.py:433-440 | a song's destination is the album's destination, the mirrored folders, then the file name |
| Conversion.SongDestinationKeepsSubdirs | flac2lib.py:429-440 | the destination repeats exactly the song's folders below the album folder, except a single folder equal to the destination's last name, which is not repeated |
| Conversion.SongDestinationShape | flac2lib.py:433-440 | the destination is named stem-dot-format and lies inside the album's destination |
| Conversion.ConvertEffect | flac2lib.py:432-456 | converting keeps every existing file, creates every destination, and each new file is a song's encoding |
| Conversion.ExportedOnlyMissing | flac2lib.py:442-456 | the encoder runs only for picked songs whose destination was missing |
| Conversion.ConvertIdempotent | flac2lib.py:442-456 | converting an album twice does nothing the second time |
| Conversion.ConvertSongs | flac2lib.py:428-458 | `convert_songs` leaves the files `Convert` computes and returns the songs encoded |
| Conversion.ConvertedKept | flac2lib.py:442 | a converted album stays converted while files are only added |
| Conversion.ConvertQueueEffect | flac2lib.py:113-114 | draining the queue keeps existing files and converts every queued album |
| Conversion.ConvertQueueWhenAllPresent | flac2lib.py:113-114 | with every destination present, the queue changes nothing |
| Conversion.ConvertQueueIdempotent | flac2lib.py:113-114 | converting the queue twice does nothing the second time |
| Conversion.ConvertAll | flac2lib.py:113-114 | the loop over the queue computes `ConvertQueue` |
| Session.ProcessAlbumMore | flac2lib.py:148-152 | the value returned is the "more albums?" answer |
| Session.PicksInside | flac2lib.py:203-215 | the songs picked from a folder's `rglob` listing lie inside that folder |
| Session.PreparedInside | flac2lib.py:124-131 | the songs picked lie inside the album folder chosen |
| Session.ProcessAlbumValid | flac2lib.py:124-146 | every queued song lies inside the album folder queued with it |
| Session.DestinationFlagWithCoverArt | flac2lib.py:133-142 | with `-d` and cover art on, nothing is queued; once the folder, the answer and the picks are known, it raises `UnboundLocalError` |
| Session.NoSongsNoDestination | flac2lib.py:131-135 | with `-e`, no `-d` and no `.flac` file in the folder, it raises `IndexError` |
| Session.QueuedDestination | flac2lib.py:133-146 | without `-d` and without cover art, no file is touched, and the album goes to the directory resolved from its first song |
| Session.AlbumProcessorImplements | flac2lib.py:117-152 | the processor passed to the loop is `process_album` |
| Session.AlbumProcessorSound | flac2lib.py:117-152 | every queued album is valid and the loop goes on exactly after `y` |
| Session.CollectStep | flac2lib.py:106-111 | one turn of the album loop: raise, stop after queuing, or queue and go on |
| Session.CollectValid | flac2lib.py:106-111 | albums are only appended to the queue, and each is valid |
| Session.CollectStopsAtFirstNo | flac2lib.py:106-111 | a run that ends normally queues one album per call and stops at the first answer that is not `y` |
| Session.RunConvertsEverything | flac2lib.py:106-114 | a normal run converts every picked song of every queued album and keeps the files present before conversion |
| Session.PrepareAlbum | flac2lib.py:124-131 | finding the folder, the compilation answer and the picks computes `Prepare` |
| Session.Script.constructor | flac2lib.py:25 | the queue starts empty |
| Session.Script.ProcessAlbum | flac2lib.py:117-152 | one call updates the files and the queue as `process_album` does and returns its answer or its exception |
| Session.Script.CollectAlbums | flac2lib.py:106-111 | the album loop leaves the files, queue and exception that `Collect` computes |
| Session.Script.RunAll | flac2lib.py:106-114 | `main` after the settings leaves the files, queue and exception that `Run` computes |

## Left out

- Audio: decoding and encoding with `pydub`/ffmpeg (lines 445, 451-453)
  are a foreign library. A converted song is the value `Encoded(song,
  format, parameters, tags)`.
- `mediainfo` is a foreign call. Its result is a given map from group to
  tags for every file.
- Image previews and sizes with OpenCV (lines 315-317, 342-347) need a
  display and a foreign library. A preview command changes nothing, but
  its index is still parsed, so a bad number raises as in the script.
- The network, the browser and `urlencode` (lines 414-415, 422-423) are
  I/O. A download is the value `Downloaded(link)` at its target, and the
  search is the parameter map that would be encoded. A failed download is
  not modelled.
- Reading the YAML file and splitting `sys.argv` with `getopt` are
  library parsing. The model starts from a `Config` record and a sequence
  of recognised options. A missing configuration key is not modelled.
- Printing, including the help text and the album, song and image lists,
  is output only. `num_albums_to_show` therefore has no effect in the
  model, as it affects nothing but printing in the script.
- `mkdir` (lines 354, 366, 419, 446-447) is left out: the model tracks
  files only, not directories.
- CoverArt.DownloadCoverArt: because directories are not tracked, a
  download target below the destination folder is always an `OSError`,
  also when its intermediate folders happen to exist already (from an
  earlier copy or song), where the script would write it. An empty
  download name, which Python reports as `IsADirectoryError`, is the same
  `OSError`.
- CoverArt.StepCopyMain: for the same reason, a missing main-cover target
  below the destination folder (a default name holding a `/`) is always an
  `OSError`, also when that folder happens to exist already.
- Running out of console input at the single-answer prompts (lines 148,
  182, 211 and 253-288) is not modelled: each of those answers is a given
  string. `EndOfInput` is raised only where answers are read as a
  sequence: the compilation prompt, the cover-art prompts and the album
  loop (when the answers for another album are missing).
- The listings `rglob` returns are fixed for the run: they do not change
  when converted songs or cover art are written, which matters only for a
  destination inside the FLAC root.
- `exists()` is answered from the modelled file tree.
- Text:
  - `lower`, `isspace` and `isnumeric` cover ASCII only.
  - `int()` covers an optional sign and ASCII digits around blanks. It
    drops Python's underscores and Unicode digits.
- Modification times are integers given per path. Python compares them
  as floats.
- Discovery.SortByMtime: equal times are ordered by an insertion sort,
  and the model does not prove that this order matches Python's stable
  `sorted(..., reverse=True)`. It proves only that the result is a
  permutation ordered newest first.
- Paths.RGlob: the order in which `rglob` visits the tree is a given
  listing, and `rglob(pattern)` filters that listing by name.
- Conversion.ConvertSongs: computes the job list for all songs before its
  loop, where the script derives each destination inside the loop. The
  files written are the same.
- Session.Run: a call that raises ends the run with the files as they
  were then, and nothing queued is converted. The traceback itself is
  not modelled.
