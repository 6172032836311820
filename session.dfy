/** One run of the script: `process_album` (flac2lib.py lines 117-152)
    called by `main` until the user wants no more albums, each call adding
    one album to the global queue, then the queue converted (lines 106-114).
    The file system, the directory listings, modification times and tags
    are given; the console input arrives phase by phase. */
module Session {
  import opened Common
  import opened Text
  import opened Paths
  import opened Tags
  import opened Storage
  import opened Destination
  import opened Conversion
  import opened Discovery
  import opened CoverArt
  import opened Settings

  /** What the script reads from outside: `base.rglob("*")` for every
      directory, modification times, and `mediainfo` of every file. */
  datatype Environment = Environment(
    rglob: Path -> seq<Path>,
    mtime: Path -> int,
    mediainfo: Path -> MediaInfo)

  /** `rglob` yields only paths strictly inside the directory searched. */
  ghost predicate ValidEnvironment(env: Environment)
  {
    forall base: Path, x: Path :: x in env.rglob(base) ==> Inside(x, base)
  }

  /** The answers typed during one call of `process_album`, by phase:
      the album index, the compilation answers (read until one is `y` or
      `n`), the song indices, the directory names, the cover-art commands
      and the "more albums?" answer. A phase that is skipped reads nothing. */
  datatype AlbumAnswers = AlbumAnswers(
    albumChoice: string,
    compilation: seq<string>,
    songChoice: string,
    dirAnswers: DirAnswers,
    coverArt: seq<string>,
    more: string)

  datatype Queued = Queued(album: AlbumToProcess, more: bool)

  /** The files after one call, and what it queued or what it raised. */
  datatype AlbumStep = AlbumStep(files: Files, outcome: Result<Queued>)

  /** Lines 124-126: the `-s` folder, or the one chosen among those found. */
  function AlbumFolder(env: Environment, s: Settings, a: AlbumAnswers): Result<Path>
  {
    if s.source.Some? then Ok(s.source.value)
    else ChooseAlbum(SortByMtime(FlacFolders(env.rglob(s.flacAlbumsDir)), env.mtime), s.latest, a.albumChoice)
  }

  /** Lines 128-129. */
  function Compilation(s: Settings, a: AlbumAnswers): Option<bool>
  {
    if s.isCompilation.Some? then s.isCompilation else CompilationAnswer(a.compilation)
  }

  /** Lines 133-137: the names and directory from the first pick's tags,
      unless `-d` gave the directory (then the names are never bound). */
  function Named(env: Environment, s: Settings, a: AlbumAnswers, picks: seq<Path>): Option<Resolution>
    requires s.destination.None? ==> picks != []
  {
    if s.destination.None? then Some(Resolve(env.mediainfo(picks[0]), s.dstAlbumsDir, s.dirPrompts, a.dirAnswers))
    else None
  }

  /** Lines 139-142: the cover-art step, which reads `artist_name` and
      `album_name` and so raises `UnboundLocalError` after `-d`. */
  function CoverArtPhase(files: Files, s: Settings, flacPath: Path, named: Option<Resolution>, dst: Path, images: seq<Path>, a: AlbumAnswers): CoverOutcome
  {
    if !s.coverArt then CoverOutcome(files, [], None)
    else if named.None? then CoverOutcome(files, [], Some(UnboundLocal))
    else CoverArtStep(files, CoverContext(flacPath, named.value.artistName, named.value.albumName, dst, s.defaultCoverArtName), images, a.coverArt)
  }

  /** What lines 124-131 determine: the album folder, whether it is a
      compilation and the songs picked. */
  datatype Prepared = Prepared(flacPath: Path, isCompilation: bool, picks: seq<Path>)

  /** Lines 124-131. */
  function Prepare(env: Environment, s: Settings, a: AlbumAnswers): Result<Prepared>
  {
    var chosen := AlbumFolder(env, s, a);
    if chosen.Err? then Err(chosen.error)
    else
      var compilation := Compilation(s, a);
      if compilation.None? then Err(EndOfInput)
      else
        var picked := PickSongs(RGlob(env.rglob(chosen.value), ".flac"), s.entire, a.songChoice);
        if picked.Err? then Err(picked.error)
        else Ok(Prepared(chosen.value, compilation.value, picked.value))
  }

  /** Lines 133-152, once the folder and the songs are known. */
  function Finish(files: Files, env: Environment, s: Settings, a: AlbumAnswers, p: Prepared): AlbumStep
  {
    if s.destination.None? && p.picks == [] then AlbumStep(files, Err(IndexError))
    else
      var named := Named(env, s, a, p.picks);
      var dst := if named.Some? then named.value.dst else s.destination.value;
      var art := CoverArtPhase(files, s, p.flacPath, named, dst, Images(env.rglob(p.flacPath), s.coverArtSuffixes), a);
      if art.error.Some? then AlbumStep(art.files, Err(art.error.value))
      else
        var album := AlbumToProcess(dst, p.picks, p.flacPath, s.ffmpegParams, s.dstFormat, p.isCompilation);
        AlbumStep(art.files, Ok(Queued(album, MoreAlbums(a.more))))
  }

  /** `process_album`, lines 117-152. */
  function ProcessAlbumSpec(files: Files, env: Environment, s: Settings, a: AlbumAnswers): AlbumStep
  {
    match Prepare(env, s, a)
    case Err(e) => AlbumStep(files, Err(e))
    case Ok(p) => Finish(files, env, s, a, p)
  }

  /** The value returned is the "more albums?" answer. */
  lemma ProcessAlbumMore(files: Files, env: Environment, s: Settings, a: AlbumAnswers)
    ensures var st := ProcessAlbumSpec(files, env, s, a);
      st.outcome.Ok? ==> st.outcome.value.more == MoreAlbums(a.more)
  {
  }

  lemma PyAtIn<T>(s: seq<T>, i: int)
    requires InRange(|s|, i)
    ensures PyAt(s, i) in s
  {
  }

  /** The songs picked from a folder's listing lie inside that folder. */
  lemma PicksInside(listing: seq<Path>, folder: Path, entire: bool, answer: string)
    requires forall x :: x in listing ==> Inside(x, folder)
    ensures var picked := PickSongs(RGlob(listing, ".flac"), entire, answer);
      picked.Ok? ==> forall i :: 0 <= i < |picked.value| ==> Inside(picked.value[i], folder)
  {
    var all := RGlob(listing, ".flac");
    var picked := PickSongs(all, entire, answer);
    if picked.Ok? {
      forall i | 0 <= i < |picked.value|
        ensures Inside(picked.value[i], folder)
      {
        if !entire {
          var pieces := SplitOn(answer, ',');
          PyAtIn(all, ParseInt(pieces[i]).value);
        }
        assert picked.value[i] in all;
        assert picked.value[i] in listing;
      }
    }
  }

  /** The songs `Prepare` picks lie inside the album folder it chose. */
  lemma PreparedInside(env: Environment, s: Settings, a: AlbumAnswers)
    requires ValidEnvironment(env)
    ensures var prepared := Prepare(env, s, a);
      prepared.Ok? ==> forall i :: 0 <= i < |prepared.value.picks| ==> Inside(prepared.value.picks[i], prepared.value.flacPath)
  {
    var chosen := AlbumFolder(env, s, a);
    if chosen.Ok? {
      PicksInside(env.rglob(chosen.value), chosen.value, s.entire, a.songChoice);
    }
  }

  /** Every song queued lies inside the album folder queued with it. */
  lemma ProcessAlbumValid(files: Files, env: Environment, s: Settings, a: AlbumAnswers)
    requires ValidEnvironment(env)
    ensures var st := ProcessAlbumSpec(files, env, s, a);
      st.outcome.Ok? ==> ValidAlbum(st.outcome.value.album)
  {
    PreparedInside(env, s, a);
  }

  /** With `-d` and cover art on, `process_album` never queues anything:
      it raises, at the latest when it reads the unbound names. */
  lemma DestinationFlagWithCoverArt(files: Files, env: Environment, s: Settings, a: AlbumAnswers)
    requires s.destination.Some? && s.coverArt
    ensures ProcessAlbumSpec(files, env, s, a).outcome.Err?
    ensures var chosen := AlbumFolder(env, s, a);
      chosen.Ok? && Compilation(s, a).Some? &&
      PickSongs(RGlob(env.rglob(chosen.value), ".flac"), s.entire, a.songChoice).Ok? ==>
        ProcessAlbumSpec(files, env, s, a) == AlbumStep(files, Err(UnboundLocal))
  {
  }

  /** Without `-d`, picking no song (possible with `-e` on a folder with no
      `.flac` file) raises on `song_picks_paths[0]`. */
  lemma NoSongsNoDestination(files: Files, env: Environment, s: Settings, a: AlbumAnswers)
    requires s.destination.None? && s.entire
    requires AlbumFolder(env, s, a).Ok? && Compilation(s, a).Some?
    requires RGlob(env.rglob(AlbumFolder(env, s, a).value), ".flac") == []
    ensures ProcessAlbumSpec(files, env, s, a) == AlbumStep(files, Err(IndexError))
  {
  }

  /** Without `-d` and with cover art off, a queued album goes to the
      directory resolved from its first song's tags, and no file is
      touched before conversion. */
  lemma QueuedDestination(files: Files, env: Environment, s: Settings, a: AlbumAnswers)
    requires s.destination.None? && !s.coverArt
    ensures var st := ProcessAlbumSpec(files, env, s, a);
      st.files == files &&
      (st.outcome.Ok? ==> var album := st.outcome.value.album;
        album.picksPaths != [] &&
        album.dstPath == Resolve(env.mediainfo(album.picksPaths[0]), s.dstAlbumsDir, s.dirPrompts, a.dirAnswers).dst)
  {
  }

  // ------------------------------------------------------ the whole run

  datatype Collected = Collected(files: Files, queue: seq<AlbumToProcess>, error: Option<PyError>)

  /** One call of `process_album` from the files it starts with. */
  type Processor = (Files, AlbumAnswers) -> AlbumStep

  function AlbumProcessor(env: Environment, s: Settings): Processor
  {
    (files: Files, a: AlbumAnswers) => ProcessAlbumSpec(files, env, s, a)
  }

  /** `process` computes what `process_album` does. The trigger keeps the
      proofs about the loop over albums from unfolding one call. */
  ghost predicate Implements(process: Processor, env: Environment, s: Settings)
  {
    forall files: Files, a: AlbumAnswers {:trigger ProcessAlbumSpec(files, env, s, a)} ::
      process(files, a) == ProcessAlbumSpec(files, env, s, a)
  }

  lemma AlbumProcessorImplements(env: Environment, s: Settings)
    ensures Implements(AlbumProcessor(env, s), env, s)
  {
  }

  /** What the rest of the run relies on about one call: a queued album is
      valid, and the call asks for more exactly on `y`. */
  ghost predicate SoundProcessor(process: Processor)
  {
    forall files: Files, a: AlbumAnswers :: process(files, a).outcome.Ok? ==>
      ValidAlbum(process(files, a).outcome.value.album) &&
      process(files, a).outcome.value.more == MoreAlbums(a.more)
  }

  lemma AlbumProcessorSound(env: Environment, s: Settings)
    requires ValidEnvironment(env)
    ensures SoundProcessor(AlbumProcessor(env, s))
  {
    forall files: Files, a: AlbumAnswers
      ensures var st := ProcessAlbumSpec(files, env, s, a);
        st.outcome.Ok? ==> ValidAlbum(st.outcome.value.album) && st.outcome.value.more == MoreAlbums(a.more)
    {
      ProcessAlbumValid(files, env, s, a);
      ProcessAlbumMore(files, env, s, a);
    }
  }

  /** `while process_album(...): continue`, lines 106-111, from a queue
      already holding `queue`. Running out of answers raises. */
  function Collect(process: Processor, files: Files, answers: seq<AlbumAnswers>, queue: seq<AlbumToProcess>): Collected
    decreases |answers|
  {
    if answers == [] then Collected(files, queue, Some(EndOfInput))
    else
      var st := process(files, answers[0]);
      match st.outcome
      case Err(e) => Collected(st.files, queue, Some(e))
      case Ok(q) =>
        if q.more then Collect(process, st.files, answers[1..], queue + [q.album])
        else Collected(st.files, queue + [q.album], None)
  }

  lemma CollectStep(process: Processor, files: Files, answers: seq<AlbumAnswers>, queue: seq<AlbumToProcess>)
    requires answers != []
    ensures var st := process(files, answers[0]);
      Collect(process, files, answers, queue) ==
        if st.outcome.Err? then Collected(st.files, queue, Some(st.outcome.error))
        else if st.outcome.value.more then Collect(process, st.files, answers[1..], queue + [st.outcome.value.album])
        else Collected(st.files, queue + [st.outcome.value.album], None)
  {
  }

  /** Albums are only ever appended to the queue, each valid. */
  lemma {:induction false} CollectValid(process: Processor, files: Files, answers: seq<AlbumAnswers>, queue: seq<AlbumToProcess>)
    requires SoundProcessor(process) && ValidQueue(queue)
    ensures var c := Collect(process, files, answers, queue);
      ValidQueue(c.queue) && queue <= c.queue
    decreases |answers|
  {
    if answers != [] {
      var st := process(files, answers[0]);
      if st.outcome.Ok? {
        var longer := queue + [st.outcome.value.album];
        assert ValidQueue(longer) by {
          assert forall k :: 0 <= k < |queue| ==> longer[k] == queue[k];
        }
        if st.outcome.value.more {
          CollectValid(process, st.files, answers[1..], longer);
        }
      }
    }
  }

  /** A run that finishes asking queues one album per answered call and
      stops at the first "more albums?" answer that is not `y`. */
  lemma {:induction false} CollectStopsAtFirstNo(process: Processor, files: Files, answers: seq<AlbumAnswers>, queue: seq<AlbumToProcess>)
    requires SoundProcessor(process)
    requires Collect(process, files, answers, queue).error.None?
    ensures var n := |Collect(process, files, answers, queue).queue| - |queue|;
      && 1 <= n <= |answers|
      && !MoreAlbums(answers[n - 1].more)
      && forall k :: 0 <= k < n - 1 ==> MoreAlbums(answers[k].more)
    decreases |answers|
  {
    var st := process(files, answers[0]);
    var q := st.outcome.value;
    if q.more {
      var longer := queue + [q.album];
      CollectStopsAtFirstNo(process, st.files, answers[1..], longer);
      var n := |Collect(process, files, answers, queue).queue| - |queue|;
      assert forall k :: 0 < k < n ==> answers[1..][k - 1] == answers[k];
    }
  }

  /** The whole run: the files after the queue is converted, or the files
      when an exception ended it and the exception. */
  function Run(files: Files, env: Environment, s: Settings, answers: seq<AlbumAnswers>): Collected
    requires ValidEnvironment(env)
  {
    AlbumProcessorSound(env, s);
    CollectValid(AlbumProcessor(env, s), files, answers, []);
    var c := Collect(AlbumProcessor(env, s), files, answers, []);
    if c.error.Some? then c
    else Collected(ConvertQueue(c.files, c.queue, env.mediainfo), c.queue, None)
  }

  /** A run that ends normally leaves every picked song of every queued
      album converted at its destination, and every file that existed
      after the cover-art steps unchanged. */
  lemma RunConvertsEverything(files: Files, env: Environment, s: Settings, answers: seq<AlbumAnswers>)
    requires ValidEnvironment(env)
    ensures var r := Run(files, env, s, answers);
      var c := Collect(AlbumProcessor(env, s), files, answers, []);
      r.error.None? ==>
        && ValidQueue(r.queue)
        && Keeps(c.files, r.files)
        && forall k :: 0 <= k < |r.queue| ==> Converted(r.queue[k], r.files)
  {
    AlbumProcessorSound(env, s);
    CollectValid(AlbumProcessor(env, s), files, answers, []);
    var c := Collect(AlbumProcessor(env, s), files, answers, []);
    if c.error.None? {
      ConvertQueueEffect(c.files, c.queue, env.mediainfo);
    }
  }

  /** Lines 124-131: finds the album folder, asks whether it is a
      compilation and which songs to take. */
  method PrepareAlbum(env: Environment, s: Settings, a: AlbumAnswers) returns (r: Result<Prepared>)
    ensures r == Prepare(env, s, a)
  {
    var flacPath: Path;
    if s.source.Some? {
      flacPath := s.source.value;
    } else {
      var chosen := GetFlacAlbumPath(env.rglob(s.flacAlbumsDir), env.mtime, s.latest, a.albumChoice);
      if chosen.Err? {
        return Err(chosen.error);
      }
      flacPath := chosen.value;
    }
    var isCompilation: bool;
    if s.isCompilation.Some? {
      isCompilation := s.isCompilation.value;
    } else {
      var answer, _ := AskIfCompilation(a.compilation);
      if answer.None? {
        return Err(EndOfInput);
      }
      isCompilation := answer.value;
    }
    var picked := PickSongs(RGlob(env.rglob(flacPath), ".flac"), s.entire, a.songChoice);
    if picked.Err? {
      return Err(picked.error);
    }
    r := Ok(Prepared(flacPath, isCompilation, picked.value));
  }

  /** The script's state: the global `queue` of lines 25 and 144-146. */
  class Script {
    var queue: seq<AlbumToProcess>

    constructor ()
      ensures queue == []
    {
      queue := [];
    }

    /** `process_album`: returns whether more albums follow, or the
        exception that ends the run. */
    method ProcessAlbum(fs: FileSystem, env: Environment, s: Settings, a: AlbumAnswers, ghost process: Processor) returns (more: bool, error: Option<PyError>)
      requires Implements(process, env, s)
      modifies this, fs
      ensures var st := process(old(fs.files), a);
        && fs.files == st.files
        && (st.outcome.Ok? ==> error.None? && queue == old(queue) + [st.outcome.value.album] && more == st.outcome.value.more)
        && (st.outcome.Err? ==> error == Some(st.outcome.error) && queue == old(queue))
    {
      assert process(fs.files, a) == ProcessAlbumSpec(fs.files, env, s, a);
      var prepared := PrepareAlbum(env, s, a);
      if prepared.Err? {
        return false, Some(prepared.error);
      }
      var p := prepared.value;
      var picks := p.picks;
      var dst: Path;
      var named: Option<Resolution> := None;
      if s.destination.None? {
        if picks == [] {
          return false, Some(IndexError);
        }
        var resolution := Resolve(env.mediainfo(picks[0]), s.dstAlbumsDir, s.dirPrompts, a.dirAnswers);
        named := Some(resolution);
        dst := resolution.dst;
      } else {
        dst := s.destination.value;
      }
      if s.coverArt {
        if named.None? {
          return false, Some(UnboundLocal);
        }
        var ctx := CoverContext(p.flacPath, named.value.artistName, named.value.albumName, dst, s.defaultCoverArtName);
        var _, failure := GetCoverArt(fs, ctx, env.rglob(p.flacPath), s.coverArtSuffixes, a.coverArt);
        if failure.Some? {
          return false, failure;
        }
      }
      queue := queue + [AlbumToProcess(dst, picks, p.flacPath, s.ffmpegParams, s.dstFormat, p.isCompilation)];
      more := MoreAlbums(a.more);
      error := None;
    }

    /** The loop of lines 106-111: albums are queued until the user
        wants no more, or an exception ends the run. */
    method CollectAlbums(fs: FileSystem, env: Environment, s: Settings, answers: seq<AlbumAnswers>, ghost process: Processor) returns (error: Option<PyError>)
      requires queue == [] && Implements(process, env, s)
      modifies this, fs
      ensures Collected(fs.files, queue, error) == Collect(process, old(fs.files), answers, [])
    {
      ghost var c := Collect(process, fs.files, answers, []);
      var i := 0;
      var more := true;
      while more
        invariant 0 <= i <= |answers|
        invariant more ==> Collect(process, fs.files, answers[i..], queue) == c
        invariant !more ==> c == Collected(fs.files, queue, None)
        decreases |answers| - i, more
      {
        if i == |answers| {
          return Some(EndOfInput);
        }
        CollectStep(process, fs.files, answers[i..], queue);
        assert answers[i..][0] == answers[i] && answers[i..][1..] == answers[i + 1..];
        var e;
        more, e := ProcessAlbum(fs, env, s, answers[i], process);
        if e.Some? {
          return e;
        }
        i := i + 1;
      }
      error := None;
    }

    /** `main` after the settings are read, lines 106-114. */
    method RunAll(fs: FileSystem, env: Environment, s: Settings, answers: seq<AlbumAnswers>) returns (error: Option<PyError>)
      requires ValidEnvironment(env) && queue == []
      modifies this, fs
      ensures var r := Run(old(fs.files), env, s, answers);
        fs.files == r.files && queue == r.queue && error == r.error
    {
      AlbumProcessorSound(env, s);
      AlbumProcessorImplements(env, s);
      CollectValid(AlbumProcessor(env, s), fs.files, answers, []);
      error := CollectAlbums(fs, env, s, answers, AlbumProcessor(env, s));
      if error.None? {
        ConvertAll(fs, queue, env.mediainfo);
      }
    }
  }
}
