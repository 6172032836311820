/** The destination directory of an album, `get_dst_album_path`
    (flac2lib.py lines 218-294): artist and album names from the first
    picked song's tags, confirmed or replaced by the user's answers, joined
    under the destination root, with an optional extra directory. */
module Destination {
  import opened Common
  import opened Text
  import opened Paths
  import opened Tags

  /** The three answers the user may be asked for. An answer the script
      does not ask for is never read. */
  datatype DirAnswers = DirAnswers(artist: string, album: string, extra: string)

  /** The names proposed from the tags and the directory built. */
  datatype Resolution = Resolution(artistName: Option<string>, albumName: Option<string>, dst: Path)

  /** The artist level, lines 245-263. */
  function ArtistLevel(artist: Option<string>, root: Path, dirPrompts: bool, answer: string): Path
  {
    if dirPrompts then
      if Truthy(artist) && IsYes(answer) then Slash(root, artist.value) else Slash(root, answer)
    else if Truthy(artist) then Slash(root, artist.value)
    else Slash(root, answer)
  }

  /** The album level, lines 265-282, exactly as written: without prompts
      the fallback prompt is guarded by the artist name (line 279) and
      builds on the root rather than on the artist level (line 282). */
  function AlbumLevel(artist: Option<string>, album: Option<string>, root: Path, artistDir: Path, dirPrompts: bool, answer: string): Path
  {
    if dirPrompts then
      if Truthy(album) && IsYes(answer) then Slash(artistDir, album.value) else Slash(artistDir, answer)
    else if Truthy(album) then Slash(artistDir, album.value)
    else if !Truthy(artist) then Slash(root, answer)
    else artistDir
  }

  /** The optional extra directory, lines 284-292. */
  function ExtraLevel(albumDir: Path, dirPrompts: bool, answer: string): Path
  {
    if dirPrompts && answer != "" then Slash(albumDir, answer) else albumDir
  }

  function Resolve(info: MediaInfo, root: Path, dirPrompts: bool, answers: DirAnswers): (r: Resolution)
    ensures r.artistName == ArtistTag(info) && r.albumName == AlbumTag(info)
    ensures WellFormed(root) ==> WellFormed(r.dst)
  {
    var artist := ArtistTag(info);
    var album := AlbumTag(info);
    var artistDir := ArtistLevel(artist, root, dirPrompts, answers.artist);
    var albumDir := AlbumLevel(artist, album, root, artistDir, dirPrompts, answers.album);
    Resolution(artist, album, ExtraLevel(albumDir, dirPrompts, answers.extra))
  }

  /** The name a prompted level takes: the proposed name when there is one
      and the answer is `y` in either case, otherwise the answer itself. */
  function Chosen(proposed: Option<string>, answer: string): string
  {
    if Truthy(proposed) && (answer == "y" || answer == "Y") then proposed.value else answer
  }

  /** With prompts, the directory is the root, then the chosen artist name,
      then the chosen album name, then the extra answer unless it is blank. */
  lemma PromptedDestination(info: MediaInfo, root: Path, answers: DirAnswers)
    ensures Resolve(info, root, true, answers).dst ==
      var artistDir := Slash(root, Chosen(ArtistTag(info), answers.artist));
      var albumDir := Slash(artistDir, Chosen(AlbumTag(info), answers.album));
      if answers.extra == "" then albumDir else Slash(albumDir, answers.extra)
  {
    YesIsOneLetter(answers.artist);
    YesIsOneLetter(answers.album);
  }

  /** With prompts, when the tags propose an artist and an album and the
      user confirms both and leaves the extra directory blank, the
      directory is `root / artist / album`; a blank answer adds nothing. */
  lemma PromptedConfirmBoth(info: MediaInfo, root: Path, confirmArtist: string, confirmAlbum: string)
    requires Truthy(ArtistTag(info)) && Truthy(AlbumTag(info))
    requires IsSegment(ArtistTag(info).value) && IsSegment(AlbumTag(info).value)
    requires IsYes(confirmArtist) && IsYes(confirmAlbum)
    ensures Resolve(info, root, true, DirAnswers(confirmArtist, confirmAlbum, "")).dst ==
            Path(root.absolute, root.parts + [ArtistTag(info).value, AlbumTag(info).value])
  {
    var a := ArtistTag(info).value;
    var b := AlbumTag(info).value;
    SlashSegment(root, a);
    SlashSegment(Slash(root, a), b);
    assert root.parts + [a] + [b] == root.parts + [a, b];
  }

  /** With prompts, a blank answer at a level without a proposed name adds
      no directory at all (pathlib ignores `/ ""`). */
  lemma PromptedBlankAddsNothing(info: MediaInfo, root: Path)
    requires !Truthy(ArtistTag(info)) && !Truthy(AlbumTag(info))
    ensures Resolve(info, root, true, DirAnswers("", "", "")).dst == root
  {
    SlashBlank(root);
  }

  /** Without prompts and with both tags, the directory is
      `root / artist / album` and no answer is read. */
  lemma UnpromptedBothTags(info: MediaInfo, root: Path, answers: DirAnswers)
    requires Truthy(ArtistTag(info)) && Truthy(AlbumTag(info))
    ensures Resolve(info, root, false, answers).dst ==
            Slash(Slash(root, ArtistTag(info).value), AlbumTag(info).value)
    ensures Resolve(info, root, false, answers) == Resolve(info, root, false, DirAnswers("", "", ""))
  {
  }

  /** Without prompts, an artist tag and no album tag: no album directory is
      added and no album name is asked for (the test on line 279 looks at
      the artist name). */
  lemma UnpromptedNoAlbumTag(info: MediaInfo, root: Path, answers: DirAnswers)
    requires Truthy(ArtistTag(info)) && !Truthy(AlbumTag(info))
    ensures Resolve(info, root, false, answers).dst == Slash(root, ArtistTag(info).value)
  {
  }

  /** Without prompts and without either tag, the album answer is joined to
      the root (line 282) and the artist answer is discarded. */
  lemma UnpromptedNoTags(info: MediaInfo, root: Path, answers: DirAnswers)
    requires !Truthy(ArtistTag(info)) && !Truthy(AlbumTag(info))
    ensures Resolve(info, root, false, answers).dst == Slash(root, answers.album)
    ensures forall other: string :: Resolve(info, root, false, answers.(artist := other)) == Resolve(info, root, false, answers)
  {
  }

  /** Without prompts, no artist tag but an album tag: the artist answer,
      then the album tag. */
  lemma UnpromptedNoArtistTag(info: MediaInfo, root: Path, answers: DirAnswers)
    requires !Truthy(ArtistTag(info)) && Truthy(AlbumTag(info))
    ensures Resolve(info, root, false, answers).dst == Slash(Slash(root, answers.artist), AlbumTag(info).value)
  {
  }

  /** The extra directory is appended only with prompts and a non-blank
      answer: a blank one leaves the album level as it is, and without
      prompts the extra answer is never read. */
  lemma ExtraOnlyWhenPrompted(info: MediaInfo, root: Path, answers: DirAnswers)
    ensures forall other: string :: Resolve(info, root, false, answers.(extra := other)) == Resolve(info, root, false, answers)
    ensures Resolve(info, root, true, answers.(extra := "")).dst ==
      Slash(Slash(root, Chosen(ArtistTag(info), answers.artist)), Chosen(AlbumTag(info), answers.album))
    ensures IsSegment(answers.extra) ==>
      var withoutExtra := Resolve(info, root, true, answers.(extra := "")).dst;
      Resolve(info, root, true, answers).dst == Path(withoutExtra.absolute, withoutExtra.parts + [answers.extra])
  {
    PromptedDestination(info, root, answers.(extra := ""));
    if IsSegment(answers.extra) {
      var withoutExtra := Resolve(info, root, true, answers.(extra := "")).dst;
      SlashSegment(withoutExtra, answers.extra);
    }
  }

  /** Artist `Foo`, album `Bar`, root `/out`, both names confirmed and no
      extra directory: the album goes to `/out/Foo/Bar`. */
  lemma FooBarExample(info: MediaInfo)
    requires info == map["TAG" := map["ARTIST" := "Foo", "ALBUM" := "Bar"]]
    ensures Resolve(info, Path(true, ["out"]), true, DirAnswers("y", "Y", "")).dst == Path(true, ["out", "Foo", "Bar"])
  {
    FooBarTags(info);
    YesIsOneLetter("y");
    YesIsOneLetter("Y");
    PromptedConfirmBoth(info, Path(true, ["out"]), "y", "Y");
    assert ["out"] + ["Foo", "Bar"] == ["out", "Foo", "Bar"];
  }

  lemma FooBarTags(info: MediaInfo)
    requires info == map["TAG" := map["ARTIST" := "Foo", "ALBUM" := "Bar"]]
    ensures ArtistTag(info) == Some("Foo") && AlbumTag(info) == Some("Bar")
    ensures IsSegment("Foo") && IsSegment("Bar")
  {
    var tags := info["TAG"];
    assert "ARTIST" in tags && tags["ARTIST"] == "Foo";
    assert "ALBUM" in tags && tags["ALBUM"] == "Bar";
  }
}
