/** POSIX `pathlib` paths as the script uses them: joining with `/`, `name`,
    `parent`, `suffix`, `stem`, `relative_to` and `str()`. A path is kept in
    pathlib's normal form: whether it starts at the root, and its segments,
    none of which is empty, `.` or contains `/`. */
module Paths {
  import opened Common
  import opened Text

  datatype Path = Path(absolute: bool, parts: seq<string>)

  predicate IsSegment(s: string)
  {
    s != "" && s != "." && '/' !in s
  }

  predicate WellFormed(p: Path)
  {
    forall i :: 0 <= i < |p.parts| ==> IsSegment(p.parts[i])
  }

  /** The pieces pathlib keeps when it parses a string: `""` (from `//` or
      an edge slash) and `.` are dropped. */
  function KeepSegments(pieces: seq<string>): (kept: seq<string>)
    ensures (forall i :: 0 <= i < |pieces| ==> '/' !in pieces[i]) ==> forall i :: 0 <= i < |kept| ==> IsSegment(kept[i])
  {
    if pieces == [] then []
    else if pieces[0] == "" || pieces[0] == "." then KeepSegments(pieces[1..])
    else [pieces[0]] + KeepSegments(pieces[1..])
  }

  function Components(s: string): (parts: seq<string>)
    ensures forall i :: 0 <= i < |parts| ==> IsSegment(parts[i])
  {
    KeepSegments(SplitOn(s, '/'))
  }

  predicate StartsAtRoot(s: string)
  {
    |s| > 0 && s[0] == '/'
  }

  /** `Path(s)`. */
  function Parse(s: string): (p: Path)
    ensures WellFormed(p)
  {
    Path(StartsAtRoot(s), Components(s))
  }

  /** `p / s` for a string `s`: an absolute `s` replaces `p`, otherwise its
      segments are appended. */
  function Slash(p: Path, s: string): (r: Path)
    ensures WellFormed(p) ==> WellFormed(r)
    ensures !StartsAtRoot(s) ==> r.absolute == p.absolute && |p.parts| <= |r.parts| && r.parts[..|p.parts|] == p.parts
  {
    if StartsAtRoot(s) then Parse(s) else Path(p.absolute, p.parts + Components(s))
  }

  /** `p / q` for a path `q`. */
  function Concat(p: Path, q: Path): (r: Path)
    ensures WellFormed(p) && WellFormed(q) ==> WellFormed(r)
  {
    if q.absolute then q else Path(p.absolute, p.parts + q.parts)
  }

  /** `p.name`: the last segment, or `""` for the root and for `.`. */
  function Name(p: Path): string
  {
    if p.parts == [] then "" else p.parts[|p.parts| - 1]
  }

  /** `p.parent`: the root and `.` are their own parents. */
  function Parent(p: Path): (r: Path)
    ensures WellFormed(p) ==> WellFormed(r)
  {
    if p.parts == [] then p else Path(p.absolute, p.parts[..|p.parts| - 1])
  }

  /** `p.relative_to(base)`; `None` stands for the `ValueError` it raises
      when `base` is not `p` or one of its ancestors. */
  function RelativeTo(p: Path, base: Path): Option<Path>
  {
    if p.absolute == base.absolute && |base.parts| <= |p.parts| && p.parts[..|base.parts|] == base.parts
    then Some(Path(false, p.parts[|base.parts|..]))
    else None
  }

  /** `p` lies strictly inside `base`, as every path `base.rglob` yields does. */
  predicate Inside(p: Path, base: Path)
  {
    p.absolute == base.absolute && |base.parts| < |p.parts| && p.parts[..|base.parts|] == base.parts
  }

  /** `str(p)`. */
  function Str(p: Path): string
  {
    if p.absolute then "/" + JoinWith(p.parts, '/')
    else if p.parts == [] then "."
    else JoinWith(p.parts, '/')
  }

  /** `relative_to` and `/` are inverse: the relative path leads back from
      the base to the path, and a relative path appended to a base is
      recovered by `relative_to`. */
  lemma RelativeToInverse(p: Path, base: Path, rel: Path)
    ensures RelativeTo(p, base) == Some(rel) ==> !rel.absolute && Concat(base, rel) == p
    ensures !rel.absolute ==> RelativeTo(Concat(base, rel), base) == Some(rel)
  {
    if RelativeTo(p, base) == Some(rel) {
      assert p.parts == base.parts + rel.parts;
    }
    if !rel.absolute {
      assert (base.parts + rel.parts)[..|base.parts|] == base.parts;
      assert (base.parts + rel.parts)[|base.parts|..] == rel.parts;
    }
  }

  /** The parent of a path inside `base` can be made relative to `base`. */
  lemma ParentOfInside(p: Path, base: Path)
    requires Inside(p, base)
    ensures RelativeTo(Parent(p), base).Some?
  {
    assert Parent(p).parts[..|base.parts|] == p.parts[..|base.parts|];
  }

  /** Appending a blank answer, or `.`, leaves a path unchanged. */
  lemma SlashBlank(p: Path)
    ensures Slash(p, "") == p
    ensures Slash(p, ".") == p
  {
    assert SplitOn("", '/') == [""];
    SplitWithoutSeparator(".", '/');
    assert p.parts + [] == p.parts;
  }

  /** Appending a single segment adds exactly that segment. */
  lemma SlashSegment(p: Path, s: string)
    requires IsSegment(s)
    ensures Slash(p, s) == Path(p.absolute, p.parts + [s])
  {
    SplitWithoutSeparator(s, '/');
    assert KeepSegments([s]) == [s] + KeepSegments([]);
  }

  /** For a well-formed relative path, `str(rel)` equals a segment exactly
      when `rel` consists of that one segment. */
  lemma StrIsSegment(rel: Path, s: string)
    requires WellFormed(rel) && !rel.absolute && IsSegment(s)
    ensures Str(rel) == s <==> rel.parts == [s]
  {
    if |rel.parts| >= 2 {
      JoinedHasSeparator(rel.parts, '/');
    }
  }

  /** `base.rglob("*" + ending)`, given `listing`, the paths `base.rglob("*")`
      yields in traversal order: the same order, keeping the paths whose
      name ends with `ending`. */
  function RGlob(listing: seq<Path>, ending: string): (found: seq<Path>)
    ensures |found| <= |listing|
    ensures forall i :: 0 <= i < |found| ==> found[i] in listing && EndsWith(Name(found[i]), ending)
    ensures forall x :: x in listing && EndsWith(Name(x), ending) ==> x in found
  {
    if listing == [] then []
    else if EndsWith(Name(listing[0]), ending) then [listing[0]] + RGlob(listing[1..], ending)
    else RGlob(listing[1..], ending)
  }

  /** The matches of a single path: itself exactly when its name matches. */
  function Match(x: Path, ending: string): seq<Path>
  {
    if EndsWith(Name(x), ending) then [x] else []
  }

  /** A listing's matches are those of its first path, then those of the
      rest. */
  lemma RGlobCons(x: Path, rest: seq<Path>, ending: string)
    ensures RGlob([x] + rest, ending) == Match(x, ending) + RGlob(rest, ending)
  {
    var l := [x] + rest;
    assert l[0] == x && l[1..] == rest;
  }

  /** `rglob` with a pattern keeps the traversal order: the matches of a
      listing are the matches of its first part followed by those of the
      rest. */
  lemma {:induction false} RGlobKeepsOrder(a: seq<Path>, b: seq<Path>, ending: string)
    ensures RGlob(a + b, ending) == RGlob(a, ending) + RGlob(b, ending)
    decreases |a|
  {
    if a == [] {
      assert RGlob(a, ending) == [];
      assert a + b == b;
      assert RGlob(a, ending) + RGlob(b, ending) == RGlob(b, ending);
    } else {
      var x := a[0];
      var t := a[1..];
      assert RGlob(a + b, ending) == Match(x, ending) + RGlob(t + b, ending) by {
        assert a + b == [x] + (t + b);
        RGlobCons(x, t + b, ending);
      }
      assert RGlob(a, ending) == Match(x, ending) + RGlob(t, ending) by {
        assert a == [x] + t;
        RGlobCons(x, t, ending);
      }
      RGlobKeepsOrder(t, b, ending);
      AppendAssoc(Match(x, ending), RGlob(t, ending), RGlob(b, ending));
    }
  }

  /** A single path is kept exactly when its name matches. */
  lemma RGlobSingle(x: Path, ending: string)
    ensures RGlob([x], ending) == Match(x, ending)
  {
    RGlobCons(x, [], ending);
    assert [x] + [] == [x];
  }

  // ------------------------------------------------------ suffix and stem

  /** `PurePath.suffix`: from the last dot, unless the dot starts or ends
      the name. */
  function Suffix(name: string): string
  {
    var i := RFind(name, '.');
    if 0 < i < |name| - 1 then name[i..] else ""
  }

  /** `PurePath.stem`: the name without its suffix. */
  function Stem(name: string): string
  {
    var i := RFind(name, '.');
    if 0 < i < |name| - 1 then name[..i] else name
  }

  /** A name is its stem followed by its suffix; a non-empty name has a
      non-empty stem; the suffix is empty or a dot and at least one more
      character, none of them a dot. */
  lemma StemSuffix(name: string)
    ensures Stem(name) + Suffix(name) == name
    ensures name != "" ==> Stem(name) != ""
    ensures Suffix(name) == "" || (|Suffix(name)| >= 2 && Suffix(name)[0] == '.' && '.' !in Suffix(name)[1..])
    ensures forall c :: c in Stem(name) ==> c in name
  {
    var i := RFind(name, '.');
    if 0 < i < |name| - 1 {
      assert name[..i] + name[i..] == name;
      assert name[i..][1..] == name[i + 1..];
    }
  }

  lemma {:induction false} KeptSegments(parts: seq<string>)
    requires forall i :: 0 <= i < |parts| ==> IsSegment(parts[i])
    ensures KeepSegments(parts) == parts
  {
    if parts != [] {
      KeptSegments(parts[1..]);
    }
  }

  /** Parsing `/a/b/...` gives the absolute path of those segments. */
  lemma ParseAbsolute(s: string, parts: seq<string>)
    requires parts != [] && forall i :: 0 <= i < |parts| ==> IsSegment(parts[i])
    requires s == JoinWith([""] + parts, '/')
    ensures Parse(s) == Path(true, parts)
  {
    SplitJoin([""] + parts, '/');
    assert ([""] + parts)[1..] == parts;
    KeptSegments(parts);
    assert s == "" + "/" + JoinWith(parts, '/');
  }
}
