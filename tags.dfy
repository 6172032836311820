/** What the script reads from `mediainfo`: a mapping from a group name to
    that group's tags. Only the group `TAG` is ever consulted. */
module Tags {
  import opened Common

  type TagMap = map<string, string>
  type MediaInfo = map<string, TagMap>

  const TagGroup := "TAG"

  /** The tag `upper` of the `TAG` group if present, else the tag `lower`
      of the same group, else nothing. */
  function LookupTag(info: MediaInfo, upper: string, lower: string): (r: Option<string>)
  {
    if TagGroup in info && upper in info[TagGroup] then Some(info[TagGroup][upper])
    else if TagGroup in info && lower in info[TagGroup] then Some(info[TagGroup][lower])
    else None
  }

  /** `artist_name`, flac2lib.py lines 227-234. */
  function ArtistTag(info: MediaInfo): Option<string>
  {
    LookupTag(info, "ARTIST", "artist")
  }

  /** `album_name`, flac2lib.py lines 236-243. */
  function AlbumTag(info: MediaInfo): Option<string>
  {
    LookupTag(info, "ALBUM", "album")
  }

  /** Python truthiness of an optional string: `None` and `""` are false. */
  predicate Truthy(name: Option<string>)
  {
    name.Some? && name.value != ""
  }

  /** Priority of the lookup: the upper-case key wins over the lower-case
      one, the lower-case one is used only without the upper-case one, and
      there is a result exactly when one of the two keys is in `TAG`. */
  lemma LookupPriority(info: MediaInfo, upper: string, lower: string)
    ensures TagGroup in info && upper in info[TagGroup] ==> LookupTag(info, upper, lower) == Some(info[TagGroup][upper])
    ensures TagGroup in info && upper !in info[TagGroup] && lower in info[TagGroup] ==> LookupTag(info, upper, lower) == Some(info[TagGroup][lower])
    ensures LookupTag(info, upper, lower).None? <==> TagGroup !in info || (upper !in info[TagGroup] && lower !in info[TagGroup])
  {
  }

  /** No group other than `TAG` is probed: two results of `mediainfo` that
      agree on `TAG` give the same artist and album, whatever their `tag`
      or `Tag` groups hold. */
  lemma OnlyTagGroupMatters(a: MediaInfo, b: MediaInfo)
    requires TagGroup in a <==> TagGroup in b
    requires TagGroup in a ==> a[TagGroup] == b[TagGroup]
    ensures ArtistTag(a) == ArtistTag(b) && AlbumTag(a) == AlbumTag(b)
  {
  }

  /** A lower-case group name is not found, whatever it holds. */
  lemma LowerCaseGroupIgnored(artist: string)
    ensures ArtistTag(map["tag" := map["artist" := artist], "Tag" := map["ARTIST" := artist]]).None?
  {
  }

  /** The tags handed to the encoder, flac2lib.py lines 448-450:
      `mediainfo(song).get('TAG', {})`, plus `compilation = '1'` for a
      compilation. */
  function ExportTags(info: MediaInfo, isCompilation: bool): (tags: TagMap)
    ensures isCompilation ==> "compilation" in tags && tags["compilation"] == "1"
    ensures !isCompilation ==> tags == (if TagGroup in info then info[TagGroup] else map[])
    ensures forall k :: k != "compilation" ==> (k in tags <==> TagGroup in info && k in info[TagGroup])
    ensures forall k :: k in tags && k != "compilation" ==> tags[k] == info[TagGroup][k]
  {
    var base := if TagGroup in info then info[TagGroup] else map[];
    if isCompilation then base["compilation" := "1"] else base
  }

  /** With no `compilation` tag of its own, an exported file carries
      `compilation` exactly when the album is a compilation. */
  lemma CompilationTagExactly(info: MediaInfo, isCompilation: bool)
    requires TagGroup !in info || "compilation" !in info[TagGroup]
    ensures "compilation" in ExportTags(info, isCompilation) <==> isCompilation
  {
  }
}
