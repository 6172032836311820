/** The batch converter, `convert_songs` (flac2lib.py lines 428-458) and the
    loop over the queue in `main` (lines 113-114). The transcoder itself is
    a foreign library; here it is the step "the destination file now exists,
    encoded from this song with these parameters and tags". */
module Conversion {
  import opened Common
  import opened Text
  import opened Paths
  import opened Tags
  import opened Storage

  /** `AlbumToProcess`, flac2lib.py lines 14-22. */
  datatype AlbumToProcess = AlbumToProcess(
    dstPath: Path,
    picksPaths: seq<Path>,
    flacPath: Path,
    ffmpegParams: string,
    dstFormat: string,
    isCompilation: bool)

  /** Every picked song lies inside the album folder, as `rglob` guarantees. */
  predicate ValidAlbum(album: AlbumToProcess)
  {
    forall i :: 0 <= i < |album.picksPaths| ==> Inside(album.picksPaths[i], album.flacPath)
  }

  predicate ValidQueue(queue: seq<AlbumToProcess>)
  {
    forall k :: 0 <= k < |queue| ==> ValidAlbum(queue[k])
  }

  /** `song_flac.stem + "." + album.dst_format`. */
  function SongFileName(song: Path, format: string): string
  {
    Stem(Name(song)) + "." + format
  }

  /** `song_flac.parent.relative_to(album.flac_path)`: the folders between
      the album folder and the song. */
  function SongFolder(album: AlbumToProcess, song: Path): (rel: Path)
    requires Inside(song, album.flacPath)
    ensures rel == Path(false, song.parts[|album.flacPath.parts|..|song.parts| - 1])
    ensures WellFormed(song) ==> WellFormed(rel)
  {
    ParentOfInside(song, album.flacPath);
    var rel := RelativeTo(Parent(song), album.flacPath).value;
    assert rel.parts == Parent(song).parts[|album.flacPath.parts|..];
    rel
  }

  /** The destination of one song, lines 433-440: the song's folder inside
      the album is mirrored under the destination, unless it is written
      exactly as the destination's own last name. */
  function SongDestination(album: AlbumToProcess, song: Path): Path
    requires Inside(song, album.flacPath)
  {
    var rel := SongFolder(album, song);
    if Name(album.dstPath) == Str(rel) then Slash(album.dstPath, SongFileName(song, album.dstFormat))
    else Slash(Concat(album.dstPath, rel), SongFileName(song, album.dstFormat))
  }

  /** The folder segments the destination repeats: none when the song's
      folder is exactly the destination's last segment. */
  function Mirrored(album: AlbumToProcess, song: Path): seq<string>
    requires Inside(song, album.flacPath)
  {
    var rel := SongFolder(album, song);
    if album.dstPath.parts != [] && rel.parts == [Name(album.dstPath)] then [] else rel.parts
  }

  lemma JoinNotEmpty(parts: seq<string>)
    requires parts != [] && parts[0] != ""
    ensures JoinWith(parts, '/') != ""
  {
  }

  /** The file name of a song's destination is one non-empty segment. */
  lemma SongFileNameIsSegment(song: Path, format: string)
    requires WellFormed(song) && song.parts != []
    requires '/' !in format
    ensures IsSegment(SongFileName(song, format))
  {
    var stem := Stem(Name(song));
    StemSuffix(Name(song));
    assert IsSegment(Name(song));
    var name := SongFileName(song, format);
    assert |name| >= 2;
    assert forall c :: c in name ==> c in stem || c == '.' || c in format;
  }

  /** The segments of a song's destination. */
  lemma SongDestinationParts(album: AlbumToProcess, song: Path)
    requires Inside(song, album.flacPath)
    requires WellFormed(album.dstPath) && WellFormed(song)
    requires '/' !in album.dstFormat
    ensures SongDestination(album, song) ==
            Path(album.dstPath.absolute, album.dstPath.parts + Mirrored(album, song) + [SongFileName(song, album.dstFormat)])
  {
    var dst := album.dstPath;
    var rel := SongFolder(album, song);
    var name := SongFileName(song, album.dstFormat);
    SongFileNameIsSegment(song, album.dstFormat);
    if dst.parts != [] {
      StrIsSegment(rel, Name(dst));
    } else {
      assert Name(dst) == "";
      if rel.parts != [] {
        JoinNotEmpty(rel.parts);
      }
    }
    if Name(dst) == Str(rel) {
      assert Mirrored(album, song) == [];
      SlashSegment(dst, name);
    } else {
      assert Mirrored(album, song) == rel.parts;
      assert Concat(dst, rel) == Path(dst.absolute, dst.parts + rel.parts);
      SlashSegment(Concat(dst, rel), name);
    }
  }

  /** Line 429's "preserving subdirs": the destination repeats exactly the
      folders between the album folder and the song, except when they are
      the single folder the destination already ends with. */
  lemma SongDestinationKeepsSubdirs(album: AlbumToProcess, song: Path)
    requires Inside(song, album.flacPath)
    requires WellFormed(album.dstPath) && WellFormed(song)
    requires '/' !in album.dstFormat
    ensures var below := song.parts[|album.flacPath.parts|..|song.parts| - 1];
      var file := SongFileName(song, album.dstFormat);
      && (album.dstPath.parts != [] && below == [Name(album.dstPath)] ==>
            SongDestination(album, song) == Path(album.dstPath.absolute, album.dstPath.parts + [file]))
      && (!(album.dstPath.parts != [] && below == [Name(album.dstPath)]) ==>
            SongDestination(album, song) == Path(album.dstPath.absolute, album.dstPath.parts + below + [file]))
  {
    SongDestinationParts(album, song);
    var file := SongFileName(song, album.dstFormat);
    assert album.dstPath.parts + [] + [file] == album.dstPath.parts + [file];
  }

  /** The shape of a song's destination: the album's destination, then the
      mirrored folder segments, then `stem + "." + dst_format`. */
  lemma SongDestinationShape(album: AlbumToProcess, song: Path)
    requires Inside(song, album.flacPath)
    requires WellFormed(album.dstPath) && WellFormed(song)
    requires '/' !in album.dstFormat
    ensures SongDestination(album, song) ==
            Path(album.dstPath.absolute, album.dstPath.parts + Mirrored(album, song) + [SongFileName(song, album.dstFormat)])
    ensures Name(SongDestination(album, song)) == SongFileName(song, album.dstFormat)
    ensures Inside(SongDestination(album, song), album.dstPath)
  {
    SongDestinationParts(album, song);
    var dst := album.dstPath;
    var parts := dst.parts + Mirrored(album, song) + [SongFileName(song, album.dstFormat)];
    assert parts[..|dst.parts|] == dst.parts;
  }

  /** The content the encoder leaves at a song's destination. */
  function EncodedSong(album: AlbumToProcess, info: Path -> MediaInfo, song: Path): FileContent
  {
    Encoded(song, album.dstFormat, SplitWhitespace(album.ffmpegParams), ExportTags(info(song), album.isCompilation))
  }

  predicate AllInside(songs: seq<Path>, folder: Path)
  {
    forall i :: 0 <= i < |songs| ==> Inside(songs[i], folder)
  }

  /** One pass of the loop body per song, lines 442-456: encode the song
      into its destination, only when that destination does not exist. */
  function Jobs(album: AlbumToProcess, info: Path -> MediaInfo, songs: seq<Path>): (jobs: seq<Job>)
    requires AllInside(songs, album.flacPath)
    ensures |jobs| == |songs|
    ensures forall i :: 0 <= i < |songs| ==>
      jobs[i] == Job(songs[i], SongDestination(album, songs[i]), EncodedSong(album, info, songs[i]))
  {
    seq(|songs|, i requires 0 <= i < |songs| && AllInside(songs, album.flacPath) =>
      Job(songs[i], SongDestination(album, songs[i]), EncodedSong(album, info, songs[i])))
  }

  /** The files after the loop has run over `songs`. */
  function Convert(files: Files, album: AlbumToProcess, info: Path -> MediaInfo, songs: seq<Path>): Files
    requires AllInside(songs, album.flacPath)
  {
    RunJobs(files, Jobs(album, info, songs))
  }

  /** What the loop does to the file tree: existing files are left as they
      were, every song's destination exists afterwards, and every new file
      is the encoding of one of the songs into its own destination. */
  lemma ConvertEffect(files: Files, album: AlbumToProcess, info: Path -> MediaInfo, songs: seq<Path>)
    requires AllInside(songs, album.flacPath)
    ensures var after := Convert(files, album, info, songs);
      && (forall p :: p in files ==> p in after && after[p] == files[p])
      && (forall i :: 0 <= i < |songs| ==> SongDestination(album, songs[i]) in after)
      && (forall p :: p in after && p !in files ==>
            exists i :: 0 <= i < |songs| && SongDestination(album, songs[i]) == p && after[p] == EncodedSong(album, info, songs[i]))
  {
    var jobs := Jobs(album, info, songs);
    RunJobsEffect(files, jobs);
    var after := Convert(files, album, info, songs);
    forall p | p in after && p !in files
      ensures exists i :: 0 <= i < |songs| && SongDestination(album, songs[i]) == p && after[p] == EncodedSong(album, info, songs[i])
    {
      var i :| 0 <= i < |jobs| && jobs[i].target == p && after[p] == jobs[i].content;
      assert SongDestination(album, songs[i]) == p;
    }
  }

  /** The encoder is called only for songs whose destination was missing,
      never twice for one destination's first writer, and at most once per
      pick. */
  lemma ExportedOnlyMissing(files: Files, album: AlbumToProcess, info: Path -> MediaInfo, songs: seq<Path>)
    requires AllInside(songs, album.flacPath)
    ensures var done := Performed(files, Jobs(album, info, songs));
      |done| <= |songs| && forall k :: 0 <= k < |done| ==>
        done[k].source in songs && done[k].target == SongDestination(album, done[k].source) && done[k].target !in files
  {
    var jobs := Jobs(album, info, songs);
    PerformedOnlyMissing(files, jobs);
    var done := Performed(files, jobs);
    forall k | 0 <= k < |done|
      ensures done[k].source in songs && done[k].target == SongDestination(album, done[k].source)
    {
      var i :| 0 <= i < |jobs| && jobs[i] == done[k];
    }
  }

  /** Converting an album twice is converting it once: the second run
      exports nothing. */
  lemma ConvertIdempotent(files: Files, album: AlbumToProcess, info: Path -> MediaInfo, songs: seq<Path>)
    requires AllInside(songs, album.flacPath)
    ensures var once := Convert(files, album, info, songs);
      Convert(once, album, info, songs) == once && Performed(once, Jobs(album, info, songs)) == []
  {
    RunJobsIdempotent(files, Jobs(album, info, songs));
  }

  /** `convert_songs(album)`. Returns the songs handed to the encoder. */
  method ConvertSongs(fs: FileSystem, album: AlbumToProcess, info: Path -> MediaInfo) returns (exported: seq<Path>)
    requires ValidAlbum(album)
    modifies fs
    ensures fs.files == Convert(old(fs.files), album, info, album.picksPaths)
    ensures var done := Performed(old(fs.files), Jobs(album, info, album.picksPaths));
      |exported| == |done| && forall k :: 0 <= k < |done| ==> exported[k] == done[k].source
  {
    var jobs := Jobs(album, info, album.picksPaths);
    ghost var done: seq<Job> := [];
    exported := [];
    var i := 0;
    while i < |jobs|
      invariant 0 <= i <= |jobs|
      invariant RunJobs(fs.files, jobs[i..]) == RunJobs(old(fs.files), jobs)
      invariant done + Performed(fs.files, jobs[i..]) == Performed(old(fs.files), jobs)
      invariant |exported| == |done| && forall k :: 0 <= k < |done| ==> exported[k] == done[k].source
    {
      var job := jobs[i];
      ghost var before := fs.files;
      RunJobsAdvance(old(fs.files), jobs, i, before, done);
      if job.target !in fs.files {
        fs.files := fs.files[job.target := job.content];
        exported := exported + [job.source];
        done := done + [job];
      }
      assert fs.files == WriteIfAbsent(before, job.target, job.content);
      i := i + 1;
    }
  }

  // ------------------------------------------------------- the whole queue

  /** The files after every queued album has been converted, in order. */
  function ConvertQueue(files: Files, queue: seq<AlbumToProcess>, info: Path -> MediaInfo): Files
    requires ValidQueue(queue)
    decreases |queue|
  {
    if queue == [] then files
    else ConvertQueue(Convert(files, queue[0], info, queue[0].picksPaths), queue[1..], info)
  }

  /** Every picked song of `album` has its destination in `files`. */
  predicate Converted(album: AlbumToProcess, files: Files)
    requires ValidAlbum(album)
  {
    forall i :: 0 <= i < |album.picksPaths| ==> SongDestination(album, album.picksPaths[i]) in files
  }

  lemma ConvertedKept(album: AlbumToProcess, before: Files, after: Files)
    requires ValidAlbum(album) && Converted(album, before) && Keeps(before, after)
    ensures Converted(album, after)
  {
  }

  /** After the queue is drained, existing files are unchanged and every
      picked song of every album has its destination. */
  lemma {:induction false} ConvertQueueEffect(files: Files, queue: seq<AlbumToProcess>, info: Path -> MediaInfo)
    requires ValidQueue(queue)
    ensures var after := ConvertQueue(files, queue, info);
      Keeps(files, after) && forall k :: 0 <= k < |queue| ==> Converted(queue[k], after)
    decreases |queue|
  {
    if queue != [] {
      var next := Convert(files, queue[0], info, queue[0].picksPaths);
      ConvertEffect(files, queue[0], info, queue[0].picksPaths);
      assert Keeps(files, next) && Converted(queue[0], next);
      ConvertQueueEffect(next, queue[1..], info);
      var after := ConvertQueue(next, queue[1..], info);
      assert after == ConvertQueue(files, queue, info);
      forall k | 0 <= k < |queue|
        ensures Converted(queue[k], after)
      {
        if k == 0 {
          ConvertedKept(queue[0], next, after);
        } else {
          assert queue[k] == queue[1..][k - 1];
        }
      }
    }
  }

  lemma {:induction false} ConvertQueueWhenAllPresent(files: Files, queue: seq<AlbumToProcess>, info: Path -> MediaInfo)
    requires ValidQueue(queue)
    requires forall k, i :: 0 <= k < |queue| && 0 <= i < |queue[k].picksPaths| ==> SongDestination(queue[k], queue[k].picksPaths[i]) in files
    ensures ConvertQueue(files, queue, info) == files
    decreases |queue|
  {
    if queue != [] {
      RunJobsWhenAllPresent(files, Jobs(queue[0], info, queue[0].picksPaths));
      forall k, i | 0 <= k < |queue[1..]| && 0 <= i < |queue[1..][k].picksPaths|
        ensures SongDestination(queue[1..][k], queue[1..][k].picksPaths[i]) in files
      {
        assert queue[1..][k] == queue[k + 1];
      }
      ConvertQueueWhenAllPresent(files, queue[1..], info);
    }
  }

  /** Running the batch converter twice on the same queue does no work the
      second time. */
  lemma ConvertQueueIdempotent(files: Files, queue: seq<AlbumToProcess>, info: Path -> MediaInfo)
    requires ValidQueue(queue)
    ensures ConvertQueue(ConvertQueue(files, queue, info), queue, info) == ConvertQueue(files, queue, info)
  {
    ConvertQueueEffect(files, queue, info);
    ConvertQueueWhenAllPresent(ConvertQueue(files, queue, info), queue, info);
  }

  /** `for album in queue: convert_songs(album)`. */
  method ConvertAll(fs: FileSystem, queue: seq<AlbumToProcess>, info: Path -> MediaInfo)
    requires ValidQueue(queue)
    modifies fs
    ensures fs.files == ConvertQueue(old(fs.files), queue, info)
  {
    var k := 0;
    while k < |queue|
      invariant 0 <= k <= |queue|
      invariant ConvertQueue(fs.files, queue[k..], info) == ConvertQueue(old(fs.files), queue, info)
    {
      assert queue[k..][1..] == queue[k + 1..];
      var _ := ConvertSongs(fs, queue[k], info);
      k := k + 1;
    }
  }
}
