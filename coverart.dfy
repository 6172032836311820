/** Cover art, `get_cover_art` and `download_cover_art` (flac2lib.py lines
    297-425): the images found in the album folder, the command loop that
    copies a main cover, copies further images keeping their folders, or
    downloads a cover under the default name, and the search the download
    opens in the browser. Image decoding, the preview window, the browser
    and the download itself are outside the model; a download is the step
    "the target now holds what the link points to". */
module CoverArt {
  import opened Common
  import opened Text
  import opened Paths
  import opened Storage

  // --------------------------------------------------------- the images

  /** `all_images_paths` after the loop of lines 307-308: the files matching
      `*.<suffix>` for the first suffix, then for the second, and so on. */
  function Images(listing: seq<Path>, suffixes: seq<string>): seq<Path>
    decreases |suffixes|
  {
    if suffixes == [] then []
    else Images(listing, suffixes[..|suffixes| - 1]) + RGlob(listing, "." + suffixes[|suffixes| - 1])
  }

  /** Lines 306-308. */
  method CollectImages(listing: seq<Path>, suffixes: seq<string>) returns (images: seq<Path>)
    ensures images == Images(listing, suffixes)
  {
    images := [];
    var k := 0;
    while k < |suffixes|
      invariant 0 <= k <= |suffixes|
      invariant images == Images(listing, suffixes[..k])
    {
      assert suffixes[..k + 1][..k] == suffixes[..k];
      images := images + RGlob(listing, "." + suffixes[k]);
      k := k + 1;
    }
    assert suffixes[..|suffixes|] == suffixes;
  }

  /** The name of `x` ends with a dot and one of the suffixes. */
  predicate ImageName(x: Path, suffixes: seq<string>)
  {
    exists k :: 0 <= k < |suffixes| && EndsWith(Name(x), "." + suffixes[k])
  }

  lemma ImageNameSnoc(x: Path, init: seq<string>, last: string)
    ensures ImageName(x, init + [last]) <==> ImageName(x, init) || EndsWith(Name(x), "." + last)
  {
    var suffixes := init + [last];
    if ImageName(x, suffixes) {
      var k :| 0 <= k < |suffixes| && EndsWith(Name(x), "." + suffixes[k]);
      if k < |init| {
        assert init[k] == suffixes[k];
      }
    }
    if ImageName(x, init) {
      var k :| 0 <= k < |init| && EndsWith(Name(x), "." + init[k]);
      assert suffixes[k] == init[k];
    }
    if EndsWith(Name(x), "." + last) {
      assert suffixes[|init|] == last;
    }
  }

  /** An image is found exactly when it is listed and its name ends with
      a dot and one of the suffixes. */
  lemma {:induction false} ImagesMembers(listing: seq<Path>, suffixes: seq<string>, x: Path)
    ensures x in Images(listing, suffixes) <==> x in listing && ImageName(x, suffixes)
    decreases |suffixes|
  {
    if suffixes != [] {
      var init := suffixes[..|suffixes| - 1];
      var last := suffixes[|suffixes| - 1];
      SplitLast(suffixes);
      ImagesMembers(listing, init, x);
      ImageNameSnoc(x, init, last);
      var found := RGlob(listing, "." + last);
      assert x in found <==> x in listing && EndsWith(Name(x), "." + last) by {
        if x in found {
          var i :| 0 <= i < |found| && found[i] == x;
        }
      }
    }
  }

  // ---------------------------------------------------------- commands

  /** What one answer of the command loop asks for, lines 341-385. */
  datatype Command =
    | Preview(index: int)
    | CopyMisc(index: int)
    | CopyMain(position: nat)
    | ShowHelp
    | Download
    | Quit
    | Ignore
    | Crash(error: PyError)

  /** The tests of lines 341-384 in their order: the first character `p`,
      then `c`, then a numeric answer, then `h`, `d` and `q`; anything else
      is read again. `answer[0]` of an empty answer and `int()` of a bad
      index raise. */
  function Classify(answer: string): Command
  {
    if answer == [] then Crash(IndexError)
    else if answer[0] == 'p' then
      match ParseInt(answer[1..])
      case None => Crash(ValueError)
      case Some(n) => Preview(n)
    else if answer[0] == 'c' then
      match ParseInt(answer[1..])
      case None => Crash(ValueError)
      case Some(n) => CopyMisc(n)
    else if IsNumeric(answer) then CopyMain(DigitsValue(answer))
    else if answer[0] == 'h' then ShowHelp
    else if answer[0] == 'd' then Download
    else if answer[0] == 'q' then Quit
    else Ignore
  }

  predicate IsCommandLetter(c: char)
  {
    c == 'p' || c == 'c' || c == 'h' || c == 'd' || c == 'q'
  }

  /** Each command is chosen by exactly the answers the tests let through:
      the first character decides, an all-digit answer is a main-cover copy
      of `int(answer)`, and any other answer is ignored. */
  lemma ClassifyCases(answer: string)
    ensures Classify(answer) == Crash(IndexError) <==> answer == ""
    ensures Classify(answer).Preview? <==> answer != "" && answer[0] == 'p' && ParseInt(answer[1..]).Some?
    ensures Classify(answer).CopyMisc? <==> answer != "" && answer[0] == 'c' && ParseInt(answer[1..]).Some?
    ensures Classify(answer) == Crash(ValueError) <==>
      answer != "" && (answer[0] == 'p' || answer[0] == 'c') && ParseInt(answer[1..]).None?
    ensures Classify(answer).CopyMain? <==> IsNumeric(answer)
    ensures Classify(answer).CopyMain? ==> ParseInt(answer) == Some(Classify(answer).position as int)
    ensures Classify(answer) == ShowHelp <==> answer != "" && answer[0] == 'h'
    ensures Classify(answer) == Download <==> answer != "" && answer[0] == 'd'
    ensures Classify(answer) == Quit <==> answer != "" && answer[0] == 'q'
    ensures Classify(answer) == Ignore <==> answer != "" && !IsCommandLetter(answer[0]) && !IsNumeric(answer)
  {
    if IsNumeric(answer) {
      ParseNumeric(answer);
      assert IsDigit(answer[0]);
    }
  }

  // ----------------------------------------------------------- targets

  /** Where the copies and the download go. */
  datatype CoverContext = CoverContext(
    flacPath: Path,
    artistName: Option<string>,
    albumName: Option<string>,
    dst: Path,
    defaultName: string)

  /** `dst_album_path / (default_cover_art_name + src.suffix)`, lines 361-363. */
  function MainTarget(ctx: CoverContext, src: Path): Path
  {
    Slash(ctx.dst, ctx.defaultName + Suffix(Name(src)))
  }

  /** `dst_album_path / src.relative_to(flac_album_path)`, lines 350-351;
      `None` stands for the `ValueError` of `relative_to`. */
  function MiscTarget(ctx: CoverContext, src: Path): Option<Path>
  {
    match RelativeTo(src, ctx.flacPath)
    case None => None
    case Some(rel) => Some(Concat(ctx.dst, rel))
  }

  /** `default_cover_art_name + link[link.rfind("."):]`, lines 420-421. */
  function DownloadName(defaultName: string, link: string): string
  {
    defaultName + SliceFrom(link, RFind(link, '.'))
  }

  function DownloadTarget(ctx: CoverContext, link: string): Path
  {
    Slash(ctx.dst, DownloadName(ctx.defaultName, link))
  }

  /** `target` is a file directly inside `dir`: the folder that the main
      copy (line 366) and the download (line 419) create before writing. */
  predicate DirectlyIn(target: Path, dir: Path)
  {
    target != dir && Parent(target) == dir
  }

  /** A name of two segments around a `/` is a file one folder below `dir`. */
  lemma TwoSegmentsBelow(dir: Path, a: string, b: string)
    requires IsSegment(a) && IsSegment(b)
    ensures Slash(dir, a + "/" + b) == Path(dir.absolute, dir.parts + [a, b])
    ensures !DirectlyIn(Slash(dir, a + "/" + b), dir)
  {
    var name := a + "/" + b;
    assert name == a + ['/'] + b;
    SplitAtFirstSeparator(a, b, '/');
    SplitWithoutSeparator(b, '/');
    KeptSegments([a, b]);
    assert Components(name) == [a, b];
    var target := Slash(dir, name);
    assert target.parts == dir.parts + [a, b];
    assert |Parent(target).parts| == |dir.parts| + 1;
  }

  /** The main cover lands directly in the destination, named with the
      default name and the image's own suffix. */
  lemma MainTargetShape(ctx: CoverContext, src: Path)
    requires IsSegment(ctx.defaultName) && WellFormed(src)
    ensures MainTarget(ctx, src) == Path(ctx.dst.absolute, ctx.dst.parts + [ctx.defaultName + Suffix(Name(src))])
    ensures Parent(MainTarget(ctx, src)) == ctx.dst
    ensures Name(MainTarget(ctx, src)) == ctx.defaultName + Suffix(Name(src))
  {
    var name := Name(src);
    StemSuffix(name);
    assert forall c :: c in Suffix(name) ==> c in name by {
      forall c | c in Suffix(name)
        ensures c in name
      {
        assert name == Stem(name) + Suffix(name);
      }
    }
    assert '/' !in name;
    var file := ctx.defaultName + Suffix(name);
    assert |file| > |ctx.defaultName| || file == ctx.defaultName;
    SlashSegment(ctx.dst, file);
    assert (ctx.dst.parts + [file])[..|ctx.dst.parts|] == ctx.dst.parts;
  }

  /** A further image keeps its place inside the album folder. */
  lemma MiscTargetShape(ctx: CoverContext, src: Path)
    requires Inside(src, ctx.flacPath)
    ensures MiscTarget(ctx, src) == Some(Path(ctx.dst.absolute, ctx.dst.parts + src.parts[|ctx.flacPath.parts|..]))
    ensures Inside(MiscTarget(ctx, src).value, ctx.dst)
    ensures Name(MiscTarget(ctx, src).value) == Name(src)
  {
    var rest := src.parts[|ctx.flacPath.parts|..];
    var parts := ctx.dst.parts + rest;
    assert parts[..|ctx.dst.parts|] == ctx.dst.parts;
    assert parts[|parts| - 1] == src.parts[|src.parts| - 1];
  }

  /** The downloaded file takes the link's text from its last dot; without
      a dot, `rfind` gives -1 and only the link's last character is kept. */
  lemma DownloadNameCases(defaultName: string, link: string)
    ensures '.' in link ==> var i := RFind(link, '.');
      DownloadName(defaultName, link) == defaultName + link[i..] && link[i] == '.' && '.' !in link[i + 1..]
    ensures '.' !in link && link != "" ==> DownloadName(defaultName, link) == defaultName + [link[|link| - 1]]
    ensures link == "" ==> DownloadName(defaultName, link) == defaultName
  {
    var i := RFind(link, '.');
    var ext := SliceFrom(link, i);
    assert DownloadName(defaultName, link) == defaultName + ext;
    if '.' in link {
      assert 0 <= i < |link|;
      assert ext == link[i..];
    } else if link != "" {
      assert i == -1;
      assert ext == link[|link| - 1..];
      assert link[|link| - 1..] == [link[|link| - 1]];
    } else {
      assert ext == [];
    }
  }

  // ----------------------------------------------------------- download

  type SearchParams = map<string, Option<string>>

  /** The artist searched for, lines 400-405: the proposed name after `y`
      in either case (which may be no name at all), none after a blank
      answer, otherwise the answer. */
  function SearchArtist(artistName: Option<string>, answer: string): (artist: Option<string>)
    ensures answer == "y" || answer == "Y" ==> artist == artistName
    ensures answer == "" ==> artist.None?
    ensures answer != "" && answer != "y" && answer != "Y" ==> artist == Some(answer)
  {
    YesIsOneLetter(answer);
    if IsYes(answer) then artistName
    else if answer == "" then None
    else Some(answer)
  }

  /** The query of lines 408-412. */
  function Search(artist: Option<string>, albumName: Option<string>): (params: SearchParams)
    ensures ("artist" in params <==> artist.Some?) && ("artist" in params ==> params["artist"] == artist)
    ensures "album" in params && params["album"] == albumName
    ensures params.Keys <= {"artist", "album"}
  {
    var base: SearchParams := if artist.Some? then map["artist" := artist] else map[];
    base["album" := albumName]
  }

  /** What `download_cover_art` leaves behind. `search` is the query opened
      in the browser, if the artist answer could be read. */
  datatype DownloadOutcome = DownloadOutcome(files: Files, search: Option<SearchParams>, error: Option<PyError>)

  /** The download target lies directly in the destination folder, the
      only folder line 419 creates: `open` at line 422 can create it. A
      name holding a `/` between two names points into a folder that does
      not exist, and an empty name points at the folder itself. */
  predicate OpensInDestination(ctx: CoverContext, link: string)
  {
    DirectlyIn(DownloadTarget(ctx, link), ctx.dst)
  }

  /** `download_cover_art`, lines 399-423: two answers, the artist and the
      link. The file is written whether or not it exists; a target outside
      the destination folder raises when it is opened. */
  function DownloadCoverArt(files: Files, ctx: CoverContext, answers: seq<string>): (d: DownloadOutcome)
    ensures d.error.None? <==> |answers| >= 2 && OpensInDestination(ctx, answers[1])
    ensures |answers| < 2 ==> d.error == Some(EndOfInput)
    ensures |answers| >= 2 && !OpensInDestination(ctx, answers[1]) ==> d.error == Some(OSError)
    ensures d.search.Some? <==> answers != []
    ensures answers != [] ==> d.search == Some(Search(SearchArtist(ctx.artistName, answers[0]), ctx.albumName))
    ensures d.error.None? ==> d.files == files[DownloadTarget(ctx, answers[1]) := Downloaded(answers[1])]
    ensures d.error.Some? ==> d.files == files
  {
    if answers == [] then DownloadOutcome(files, None, Some(EndOfInput))
    else
      var search := Search(SearchArtist(ctx.artistName, answers[0]), ctx.albumName);
      if |answers| == 1 then DownloadOutcome(files, Some(search), Some(EndOfInput))
      else if !OpensInDestination(ctx, answers[1]) then DownloadOutcome(files, Some(search), Some(OSError))
      else DownloadOutcome(files[DownloadTarget(ctx, answers[1]) := Downloaded(answers[1])], Some(search), None)
  }

  /** A download name that is one path segment is written directly into
      the destination; one made of two segments around a `/` (a link
      without a file extension, such as `https://host.co/image/ab67`)
      raises. */
  lemma DownloadOpensWhen(ctx: CoverContext, link: string, a: string, b: string)
    ensures IsSegment(DownloadName(ctx.defaultName, link)) ==> OpensInDestination(ctx, link)
    ensures DownloadName(ctx.defaultName, link) == a + "/" + b && IsSegment(a) && IsSegment(b) ==>
      !OpensInDestination(ctx, link)
  {
    var name := DownloadName(ctx.defaultName, link);
    if IsSegment(name) {
      SlashSegment(ctx.dst, name);
      assert (ctx.dst.parts + [name])[..|ctx.dst.parts|] == ctx.dst.parts;
    }
    if name == a + "/" + b && IsSegment(a) && IsSegment(b) {
      TwoSegmentsBelow(ctx.dst, a, b);
    }
  }

  /** The main cover is copied directly into the destination when the
      default name is one segment; a default name `a/b` puts it one folder
      below, which line 366 does not create, so the copy raises. */
  lemma MainCopyOpensWhen(ctx: CoverContext, src: Path, a: string, b: string)
    requires WellFormed(src)
    ensures IsSegment(ctx.defaultName) ==> DirectlyIn(MainTarget(ctx, src), ctx.dst)
    ensures ctx.defaultName == a + "/" + b && IsSegment(a) && IsSegment(b) ==>
      !DirectlyIn(MainTarget(ctx, src), ctx.dst)
  {
    if IsSegment(ctx.defaultName) {
      MainTargetShape(ctx, src);
    }
    if ctx.defaultName == a + "/" + b && IsSegment(a) && IsSegment(b) {
      var suffix := Suffix(Name(src));
      SuffixHasNoSlash(src);
      var tail := b + suffix;
      assert IsSegment(tail) by {
        assert suffix == "" || |tail| >= 3;
      }
      assert ctx.defaultName + suffix == a + "/" + tail;
      TwoSegmentsBelow(ctx.dst, a, tail);
    }
  }

  /** The suffix of a well-formed path's name holds no `/`. */
  lemma SuffixHasNoSlash(src: Path)
    requires WellFormed(src)
    ensures '/' !in Suffix(Name(src))
  {
    var name := Name(src);
    StemSuffix(name);
    assert name == Stem(name) + Suffix(name);
    assert forall c :: c in Suffix(name) ==> c in name;
  }

  function Searched(d: DownloadOutcome): seq<SearchParams>
  {
    if d.search.Some? then [d.search.value] else []
  }

  // ------------------------------------------------------- command loop

  /** What the cover-art step leaves behind: the files, the searches opened
      in the browser, and the exception that ended it, if any. */
  datatype CoverOutcome = CoverOutcome(files: Files, searches: seq<SearchParams>, error: Option<PyError>)

  /** Where one pass of the loop leaves it: finished, or with new files,
      searches and the answers still unread. */
  datatype Next =
    | Done(outcome: CoverOutcome)
    | Continue(files: Files, searches: seq<SearchParams>, rest: seq<string>)

  /** One pass of the `while True` loop of lines 339-385: one answer is
      read (a download reads two more). */
  function Step(files: Files, searches: seq<SearchParams>, ctx: CoverContext, images: seq<Path>, lines: seq<string>): (next: Next)
    requires lines != []
    ensures next.Continue? ==> |next.rest| < |lines|
  {
    var rest := lines[1..];
    match Classify(lines[0])
    case Crash(e) => Done(CoverOutcome(files, searches, Some(e)))
    case Quit => Done(CoverOutcome(files, searches, None))
    case ShowHelp => Continue(files, searches, rest)
    case Ignore => Continue(files, searches, rest)
    case Preview(n) =>
      if InRange(|images|, n) then Continue(files, searches, rest)
      else Done(CoverOutcome(files, searches, Some(IndexError)))
    case CopyMisc(n) =>
      if !InRange(|images|, n) then Done(CoverOutcome(files, searches, Some(IndexError)))
      else
        var src := PyAt(images, n);
        var target := MiscTarget(ctx, src);
        if target.None? then Done(CoverOutcome(files, searches, Some(ValueError)))
        else Continue(WriteIfAbsent(files, target.value, Copied(src)), searches, rest)
    case CopyMain(n) =>
      if n >= |images| then Done(CoverOutcome(files, searches, Some(IndexError)))
      else
        var target := MainTarget(ctx, images[n]);
        if target !in files && !DirectlyIn(target, ctx.dst) then Done(CoverOutcome(files, searches, Some(OSError)))
        else Continue(WriteIfAbsent(files, target, Copied(images[n])), searches, rest)
    case Download =>
      var d := DownloadCoverArt(files, ctx, rest);
      if d.error.Some? then Done(CoverOutcome(d.files, searches + Searched(d), d.error))
      else Continue(d.files, searches + Searched(d), rest[2..])
  }

  /** The loop until it returns or raises; the input running out raises. */
  function CoverLoop(files: Files, searches: seq<SearchParams>, ctx: CoverContext, images: seq<Path>, lines: seq<string>): CoverOutcome
    decreases |lines|
  {
    if lines == [] then CoverOutcome(files, searches, Some(EndOfInput))
    else
      match Step(files, searches, ctx, images, lines)
      case Done(outcome) => outcome
      case Continue(next, found, rest) => CoverLoop(next, found, ctx, images, rest)
  }

  // The effect of one pass, command by command, in terms of the answer.

  /** An all-digit answer `n` copies the `n`-th image to the main cover
      name unless that file exists, lines 359-371; past the last image it
      raises, and so does a missing target outside the destination folder,
      the only folder line 366 creates. */
  lemma StepCopyMain(files: Files, searches: seq<SearchParams>, ctx: CoverContext, images: seq<Path>, lines: seq<string>)
    requires lines != []
    ensures IsNumeric(lines[0]) && DigitsValue(lines[0]) < |images| ==>
      var src := images[DigitsValue(lines[0])];
      var target := MainTarget(ctx, src);
      && (target in files || DirectlyIn(target, ctx.dst) ==>
            Step(files, searches, ctx, images, lines) ==
              Continue(WriteIfAbsent(files, target, Copied(src)), searches, lines[1..]))
      && (target !in files && !DirectlyIn(target, ctx.dst) ==>
            Step(files, searches, ctx, images, lines) == Done(CoverOutcome(files, searches, Some(OSError))))
    ensures IsNumeric(lines[0]) && DigitsValue(lines[0]) >= |images| ==>
      Step(files, searches, ctx, images, lines) == Done(CoverOutcome(files, searches, Some(IndexError)))
  {
    if IsNumeric(lines[0]) {
      assert IsDigit(lines[0][0]);
      assert Classify(lines[0]) == CopyMain(DigitsValue(lines[0]));
    }
  }

  /** `c<n>` copies image `n` (counted from the end when negative) to its
      place under the destination unless that file exists, lines 348-358;
      an index out of range and an image outside the FLAC album folder
      raise. */
  lemma StepCopyMisc(files: Files, searches: seq<SearchParams>, ctx: CoverContext, images: seq<Path>, lines: seq<string>)
    requires lines != []
    ensures lines[0] != "" && lines[0][0] == 'c' && ParseInt(lines[0][1..]).Some? ==>
      var n := ParseInt(lines[0][1..]).value;
      var next := Step(files, searches, ctx, images, lines);
      && (!InRange(|images|, n) ==> next == Done(CoverOutcome(files, searches, Some(IndexError))))
      && (InRange(|images|, n) && MiscTarget(ctx, PyAt(images, n)).None? ==>
            next == Done(CoverOutcome(files, searches, Some(ValueError))))
      && (InRange(|images|, n) && MiscTarget(ctx, PyAt(images, n)).Some? ==>
            next == Continue(WriteIfAbsent(files, MiscTarget(ctx, PyAt(images, n)).value, Copied(PyAt(images, n))),
                             searches, lines[1..]))
  {
    ClassifyCases(lines[0]);
  }

  /** `d` reads the artist and the link and downloads: the
      search is opened once the artist is read, the file is written once
      the link is read and can be opened, and the loop then goes on with
      the answers after the link, lines 377-379. */
  lemma StepDownload(files: Files, searches: seq<SearchParams>, ctx: CoverContext, images: seq<Path>, lines: seq<string>)
    requires lines != []
    ensures lines[0] != "" && lines[0][0] == 'd' ==>
      var next := Step(files, searches, ctx, images, lines);
      && (|lines| == 1 ==> next == Done(CoverOutcome(files, searches, Some(EndOfInput))))
      && (|lines| >= 2 ==>
            var found := searches + [Search(SearchArtist(ctx.artistName, lines[1]), ctx.albumName)];
            && (|lines| == 2 ==> next == Done(CoverOutcome(files, found, Some(EndOfInput))))
            && (|lines| >= 3 && !OpensInDestination(ctx, lines[2]) ==>
                  next == Done(CoverOutcome(files, found, Some(OSError))))
            && (|lines| >= 3 && OpensInDestination(ctx, lines[2]) ==>
                  next == Continue(files[DownloadTarget(ctx, lines[2]) := Downloaded(lines[2])], found, lines[3..])))
  {
    if lines[0] != "" && lines[0][0] == 'd' {
      assert !IsDigit(lines[0][0]);
      assert Classify(lines[0]) == Download;
      if |lines| >= 3 {
        assert lines[1..][1] == lines[2];
        assert lines[1..][2..] == lines[3..];
      }
    }
  }

  /** `q` ends the loop without an error, lines 384-385. */
  lemma StepQuit(files: Files, searches: seq<SearchParams>, ctx: CoverContext, images: seq<Path>, lines: seq<string>)
    requires lines != []
    ensures lines[0] != "" && lines[0][0] == 'q' ==>
      Step(files, searches, ctx, images, lines) == Done(CoverOutcome(files, searches, None))
  {
    ClassifyCases(lines[0]);
  }

  /** `h`, a preview of an image in range and any answer that is no
      command leave the files and the searches as they are and read the
      next answer, lines 341-347 and 372-376. */
  lemma StepLeavesFiles(files: Files, searches: seq<SearchParams>, ctx: CoverContext, images: seq<Path>, lines: seq<string>)
    requires lines != []
    ensures lines[0] != "" && lines[0][0] == 'h' ==>
      Step(files, searches, ctx, images, lines) == Continue(files, searches, lines[1..])
    ensures (lines[0] != "" && lines[0][0] == 'p' && ParseInt(lines[0][1..]).Some? &&
             InRange(|images|, ParseInt(lines[0][1..]).value)) ==>
      Step(files, searches, ctx, images, lines) == Continue(files, searches, lines[1..])
    ensures lines[0] != "" && !IsCommandLetter(lines[0][0]) && !IsNumeric(lines[0]) ==>
      Step(files, searches, ctx, images, lines) == Continue(files, searches, lines[1..])
  {
    ClassifyCases(lines[0]);
  }

  /** The answers that raise before any command runs: an empty answer
      (`answer[0]`), `p` or `c` followed by no integer (`int()`), and a
      preview index out of range. */
  lemma StepRaises(files: Files, searches: seq<SearchParams>, ctx: CoverContext, images: seq<Path>, lines: seq<string>)
    requires lines != []
    ensures lines[0] == "" ==>
      Step(files, searches, ctx, images, lines) == Done(CoverOutcome(files, searches, Some(IndexError)))
    ensures lines[0] != "" && (lines[0][0] == 'p' || lines[0][0] == 'c') && ParseInt(lines[0][1..]).None? ==>
      Step(files, searches, ctx, images, lines) == Done(CoverOutcome(files, searches, Some(ValueError)))
    ensures (lines[0] != "" && lines[0][0] == 'p' && ParseInt(lines[0][1..]).Some? &&
             !InRange(|images|, ParseInt(lines[0][1..]).value)) ==>
      Step(files, searches, ctx, images, lines) == Done(CoverOutcome(files, searches, Some(IndexError)))
  {
    ClassifyCases(lines[0]);
  }

  /** Answering `0` and then `q` copies the first image to the main cover
      name, when that name is one segment, and ends the step. */
  lemma CopyFirstThenQuit(files: Files, ctx: CoverContext, images: seq<Path>)
    requires images != [] && WellFormed(images[0])
    ensures IsSegment(ctx.defaultName) ==>
      CoverLoop(files, [], ctx, images, ["0", "q"]) ==
        CoverOutcome(WriteIfAbsent(files, MainTarget(ctx, images[0]), Copied(images[0])), [], None)
  {
    var lines := ["0", "q"];
    assert IsNumeric(lines[0]) && DigitsValue(lines[0]) == 0;
    MainCopyOpensWhen(ctx, images[0], "", "");
    StepCopyMain(files, [], ctx, images, lines);
    var next := WriteIfAbsent(files, MainTarget(ctx, images[0]), Copied(images[0]));
    assert lines[1..] == ["q"];
    StepQuit(next, [], ctx, images, ["q"]);
    assert ["q"][1..] == [];
  }

  function NextFiles(next: Next): Files
  {
    if next.Done? then next.outcome.files else next.files
  }

  function NextSearches(next: Next): seq<SearchParams>
  {
    if next.Done? then next.outcome.searches else next.searches
  }

  /** `get_cover_art`, lines 306-386, given the images found: without
      images one answer is read first, `y` downloads and `n` returns; any
      other answer falls through to the command loop with no images. */
  function CoverArtStep(files: Files, ctx: CoverContext, images: seq<Path>, lines: seq<string>): CoverOutcome
  {
    if images != [] then CoverLoop(files, [], ctx, images, lines)
    else if lines == [] then CoverOutcome(files, [], Some(EndOfInput))
    else if IsYes(lines[0]) then
      var d := DownloadCoverArt(files, ctx, lines[1..]);
      CoverOutcome(d.files, Searched(d), d.error)
    else if IsNo(lines[0]) then CoverOutcome(files, [], None)
    else CoverLoop(files, [], ctx, images, lines[1..])
  }

  /** A file the cover-art step may create or change: a copy of a found
      image at its main or its mirrored target, or a download at the
      target its link names. */
  predicate Explained(ctx: CoverContext, images: seq<Path>, p: Path, content: FileContent)
  {
    || (content.Copied? && content.source in images &&
          (p == MainTarget(ctx, content.source) || MiscTarget(ctx, content.source) == Some(p)))
    || (content.Downloaded? && p == DownloadTarget(ctx, content.link))
  }

  /** `after` adds to or changes `before` only as the cover-art step can:
      nothing is removed, every new or changed file is explained, and only
      a download replaces an existing file. */
  predicate CoverEffect(ctx: CoverContext, images: seq<Path>, before: Files, after: Files)
  {
    && (forall p :: p in before ==> p in after)
    && (forall p :: p in after && p !in before ==> Explained(ctx, images, p, after[p]))
    && (forall p :: p in before && after[p] != before[p] ==> after[p].Downloaded? && Explained(ctx, images, p, after[p]))
  }

  lemma CoverEffectTrans(ctx: CoverContext, images: seq<Path>, a: Files, b: Files, c: Files)
    requires CoverEffect(ctx, images, a, b) && CoverEffect(ctx, images, b, c)
    ensures CoverEffect(ctx, images, a, c)
  {
    forall p | p in a && c[p] != a[p]
      ensures c[p].Downloaded? && Explained(ctx, images, p, c[p])
    {
      if c[p] == b[p] {
        assert b[p] != a[p];
      }
    }
  }

  predicate NamesAlbum(searches: seq<SearchParams>, albumName: Option<string>)
  {
    forall k :: 0 <= k < |searches| ==> "album" in searches[k] && searches[k]["album"] == albumName
  }

  /** A copy of a found image to one of its targets, skipped when the
      target exists. */
  lemma CopyEffect(ctx: CoverContext, images: seq<Path>, files: Files, target: Path, src: Path)
    requires src in images
    requires target == MainTarget(ctx, src) || MiscTarget(ctx, src) == Some(target)
    ensures var after := WriteIfAbsent(files, target, Copied(src));
      CoverEffect(ctx, images, files, after) && Keeps(files, after)
  {
  }

  /** Writing an explained file over the tree is a change the cover-art
      step may make, as long as only downloads replace existing files. */
  lemma WriteExplained(ctx: CoverContext, images: seq<Path>, files: Files, p: Path, content: FileContent)
    requires Explained(ctx, images, p, content)
    requires p in files ==> content.Downloaded?
    ensures CoverEffect(ctx, images, files, files[p := content])
  {
    var after := files[p := content];
    forall q | q in files && after[q] != files[q]
      ensures after[q].Downloaded? && Explained(ctx, images, q, after[q])
    {
      assert q == p;
    }
  }

  /** A download writes only its own target and opens a search naming
      the album. */
  lemma DownloadEffect(files: Files, searches: seq<SearchParams>, ctx: CoverContext, images: seq<Path>, answers: seq<string>)
    ensures var d := DownloadCoverArt(files, ctx, answers);
      && CoverEffect(ctx, images, files, d.files)
      && (NamesAlbum(searches, ctx.albumName) ==> NamesAlbum(searches + Searched(d), ctx.albumName))
  {
    var d := DownloadCoverArt(files, ctx, answers);
    if d.error.None? {
      WriteExplained(ctx, images, files, DownloadTarget(ctx, answers[1]), Downloaded(answers[1]));
    }
    var found := searches + Searched(d);
    if NamesAlbum(searches, ctx.albumName) {
      forall k | 0 <= k < |found|
        ensures "album" in found[k] && found[k]["album"] == ctx.albumName
      {
        if k >= |searches| {
          assert found[k] == d.search.value;
        } else {
          assert found[k] == searches[k];
        }
      }
    }
  }

  /** One pass changes the files only as `CoverEffect` allows; a pass that
      is not a download leaves every existing file and the searches as they
      were; a search is only ever appended, and it names the album. */
  lemma StepEffect(files: Files, searches: seq<SearchParams>, ctx: CoverContext, images: seq<Path>, lines: seq<string>)
    requires lines != []
    ensures var next := Step(files, searches, ctx, images, lines);
      && CoverEffect(ctx, images, files, NextFiles(next))
      && (Classify(lines[0]) != Download ==>
            NextSearches(next) == searches && forall p :: p in files ==> NextFiles(next)[p] == files[p])
      && (NamesAlbum(searches, ctx.albumName) ==> NamesAlbum(NextSearches(next), ctx.albumName))
  {
    var next := Step(files, searches, ctx, images, lines);
    match Classify(lines[0])
    case CopyMisc(n) =>
      if InRange(|images|, n) {
        var m := if n < 0 then |images| + n else n;
        assert PyAt(images, n) == images[m];
        var target := MiscTarget(ctx, images[m]);
        if target.Some? {
          CopyEffect(ctx, images, files, target.value, images[m]);
          assert next == Continue(WriteIfAbsent(files, target.value, Copied(images[m])), searches, lines[1..]);
        } else {
          assert next.Done? && next.outcome.files == files && next.outcome.searches == searches;
        }
      } else {
        assert next.Done? && next.outcome.files == files && next.outcome.searches == searches;
      }
    case CopyMain(n) =>
      if n < |images| && (MainTarget(ctx, images[n]) in files || DirectlyIn(MainTarget(ctx, images[n]), ctx.dst)) {
        var target := MainTarget(ctx, images[n]);
        CopyEffect(ctx, images, files, target, images[n]);
        assert next == Continue(WriteIfAbsent(files, target, Copied(images[n])), searches, lines[1..]);
      } else {
        assert next.Done? && next.outcome.files == files && next.outcome.searches == searches;
      }
    case Download =>
      DownloadEffect(files, searches, ctx, images, lines[1..]);
    case _ =>
      assert NextFiles(next) == files && NextSearches(next) == searches;
  }

  /** The command loop changes the files only by copying found images to
      their targets, never over an existing file, and by downloads; every
      search it opens names the album. */
  lemma {:induction false} CoverLoopEffect(files: Files, searches: seq<SearchParams>, ctx: CoverContext, images: seq<Path>, lines: seq<string>)
    ensures CoverEffect(ctx, images, files, CoverLoop(files, searches, ctx, images, lines).files)
    ensures NamesAlbum(searches, ctx.albumName) ==> NamesAlbum(CoverLoop(files, searches, ctx, images, lines).searches, ctx.albumName)
    decreases |lines|
  {
    if lines != [] {
      StepEffect(files, searches, ctx, images, lines);
      match Step(files, searches, ctx, images, lines)
      case Done(outcome) =>
      case Continue(next, found, rest) =>
        CoverLoopEffect(next, found, ctx, images, rest);
        CoverEffectTrans(ctx, images, files, next, CoverLoop(next, found, ctx, images, rest).files);
    }
  }

  /** Without a `d` answer, no existing file is touched (both kinds of copy
      are skipped when their target exists) and nothing is searched. */
  lemma {:induction false} CopiesNeverOverwrite(files: Files, searches: seq<SearchParams>, ctx: CoverContext, images: seq<Path>, lines: seq<string>)
    requires forall i :: 0 <= i < |lines| ==> Classify(lines[i]) != Download
    ensures var after := CoverLoop(files, searches, ctx, images, lines).files;
      forall p :: p in files ==> p in after && after[p] == files[p]
    ensures CoverLoop(files, searches, ctx, images, lines).searches == searches
    decreases |lines|
  {
    if lines != [] {
      StepEffect(files, searches, ctx, images, lines);
      match Step(files, searches, ctx, images, lines)
      case Done(outcome) =>
      case Continue(next, found, rest) =>
        assert rest == lines[1..];
        assert forall i :: 0 <= i < |rest| ==> rest[i] == lines[i + 1];
        CopiesNeverOverwrite(next, found, ctx, images, rest);
    }
  }

  /** With no images and an answer other than `y` or `n`, the command loop
      runs over an empty list: every copy or preview then raises. */
  lemma NoImagesFallThrough(files: Files, ctx: CoverContext, first: string, command: string, more: seq<string>)
    requires !IsYes(first) && !IsNo(first)
    requires Classify(command).CopyMain? || Classify(command).CopyMisc? || Classify(command).Preview?
    ensures CoverArtStep(files, ctx, [], [first, command] + more) == CoverOutcome(files, [], Some(IndexError))
  {
    var lines := [first, command] + more;
    assert lines[1..] == [command] + more;
    assert ([command] + more)[0] == command;
  }

  // ------------------------------------------------------------ methods

  /** The command loop of lines 339-385 on the file system. */
  method CommandLoop(fs: FileSystem, ctx: CoverContext, images: seq<Path>, lines: seq<string>)
    returns (searches: seq<SearchParams>, error: Option<PyError>)
    modifies fs
    ensures CoverOutcome(fs.files, searches, error) == CoverLoop(old(fs.files), [], ctx, images, lines)
  {
    searches := [];
    var i := 0;
    while i < |lines|
      invariant 0 <= i <= |lines|
      invariant CoverLoop(fs.files, searches, ctx, images, lines[i..]) == CoverLoop(old(fs.files), [], ctx, images, lines)
      decreases |lines| - i
    {
      var answer := lines[i];
      assert lines[i..][0] == answer && lines[i..][1..] == lines[i + 1..];
      i := i + 1;
      match Classify(answer)
      case Crash(e) =>
        error := Some(e);
        return;
      case Quit =>
        error := None;
        return;
      case ShowHelp =>
      case Ignore =>
      case Preview(n) =>
        if !InRange(|images|, n) {
          error := Some(IndexError);
          return;
        }
      case CopyMisc(n) =>
        if !InRange(|images|, n) {
          error := Some(IndexError);
          return;
        }
        var src := PyAt(images, n);
        var target := MiscTarget(ctx, src);
        if target.None? {
          error := Some(ValueError);
          return;
        }
        if target.value !in fs.files {
          fs.files := fs.files[target.value := Copied(src)];
        }
      case CopyMain(n) =>
        if n >= |images| {
          error := Some(IndexError);
          return;
        }
        var target := MainTarget(ctx, images[n]);
        if target !in fs.files {
          if !DirectlyIn(target, ctx.dst) {
            error := Some(OSError);
            return;
          }
          fs.files := fs.files[target := Copied(images[n])];
        }
      case Download =>
        var d := DownloadCoverArt(fs.files, ctx, lines[i..]);
        fs.files := d.files;
        searches := searches + Searched(d);
        if d.error.Some? {
          error := d.error;
          return;
        }
        assert lines[i..][2..] == lines[i + 2..];
        i := i + 2;
    }
    error := Some(EndOfInput);
  }

  /** `get_cover_art`: `listing` is `flac_album_path.rglob("*")`. */
  method GetCoverArt(fs: FileSystem, ctx: CoverContext, listing: seq<Path>, suffixes: seq<string>, lines: seq<string>)
    returns (searches: seq<SearchParams>, error: Option<PyError>)
    modifies fs
    ensures CoverOutcome(fs.files, searches, error) == CoverArtStep(old(fs.files), ctx, Images(listing, suffixes), lines)
  {
    var images := CollectImages(listing, suffixes);
    if images == [] {
      if lines == [] {
        return [], Some(EndOfInput);
      }
      if IsYes(lines[0]) {
        var d := DownloadCoverArt(fs.files, ctx, lines[1..]);
        fs.files := d.files;
        return Searched(d), d.error;
      } else if IsNo(lines[0]) {
        return [], None;
      }
      searches, error := CommandLoop(fs, ctx, images, lines[1..]);
    } else {
      searches, error := CommandLoop(fs, ctx, images, lines);
    }
  }
}
