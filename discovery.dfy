/** Choosing what to convert: the album folders found under the FLAC root,
    newest first (`get_flac_album_path`, flac2lib.py lines 155-183), the
    songs picked inside one album (`pick_songs`, lines 198-215) and the two
    yes/no questions of `ask_if_compilation` (lines 186-195) and
    `process_album` (lines 148-152). Directory listings are given in the
    order `rglob` yields them; modification times are a given function. */
module Discovery {
  import opened Common
  import opened Text
  import opened Paths

  // ------------------------------------------------------- album folders

  /** `x.suffix == ".flac"`. */
  predicate HasFlacSuffix(x: Path)
  {
    Suffix(Name(x)) == ".flac"
  }

  predicate Distinct(s: seq<Path>)
  {
    forall i, j :: 0 <= i < j < |s| ==> s[i] != s[j]
  }

  /** `folders_with_flacs` after the loop of lines 164-166 has seen
      `entries`: the parent of each `.flac` entry, unless already listed. */
  function FlacFolders(entries: seq<Path>): seq<Path>
    decreases |entries|
  {
    if entries == [] then []
    else
      var prev := FlacFolders(entries[..|entries| - 1]);
      var x := entries[|entries| - 1];
      if HasFlacSuffix(x) && Parent(x) !in prev then prev + [Parent(x)] else prev
  }

  /** The loop of lines 163-166. */
  method CollectFlacFolders(entries: seq<Path>) returns (folders: seq<Path>)
    ensures folders == FlacFolders(entries)
  {
    folders := [];
    var i := 0;
    while i < |entries|
      invariant 0 <= i <= |entries|
      invariant folders == FlacFolders(entries[..i])
    {
      var x := entries[i];
      assert entries[..i + 1][..i] == entries[..i];
      if HasFlacSuffix(x) && Parent(x) !in folders {
        folders := folders + [Parent(x)];
      }
      i := i + 1;
    }
    assert entries[..|entries|] == entries;
  }

  /** The parent of a `.flac` entry among `entries`. */
  predicate SeenFolder(entries: seq<Path>, p: Path)
  {
    exists i :: 0 <= i < |entries| && HasFlacSuffix(entries[i]) && Parent(entries[i]) == p
  }

  lemma SeenFolderSnoc(entries: seq<Path>, x: Path, p: Path)
    ensures SeenFolder(entries + [x], p) <==> SeenFolder(entries, p) || (HasFlacSuffix(x) && Parent(x) == p)
  {
    var all := entries + [x];
    if SeenFolder(entries, p) {
      var i :| 0 <= i < |entries| && HasFlacSuffix(entries[i]) && Parent(entries[i]) == p;
      assert all[i] == entries[i];
    }
    if HasFlacSuffix(x) && Parent(x) == p {
      assert all[|entries|] == x;
    }
    if SeenFolder(all, p) {
      var i :| 0 <= i < |all| && HasFlacSuffix(all[i]) && Parent(all[i]) == p;
      if i < |entries| {
        assert entries[i] == all[i];
      }
    }
  }

  /** A folder is listed exactly when it is the parent of some `.flac`
      entry. */
  lemma {:induction false} FlacFoldersMembers(entries: seq<Path>)
    ensures forall p :: p in FlacFolders(entries) <==> SeenFolder(entries, p)
    decreases |entries|
  {
    if entries != [] {
      var init := entries[..|entries| - 1];
      var x := entries[|entries| - 1];
      SplitLast(entries);
      FlacFoldersMembers(init);
      forall p
        ensures p in FlacFolders(entries) <==> SeenFolder(entries, p)
      {
        SeenFolderSnoc(init, x, p);
      }
    }
  }

  /** No folder is listed twice. */
  lemma {:induction false} FlacFoldersDistinct(entries: seq<Path>)
    ensures Distinct(FlacFolders(entries))
    decreases |entries|
  {
    if entries != [] {
      FlacFoldersDistinct(entries[..|entries| - 1]);
    }
  }

  /** Later entries only ever append to the list. */
  lemma {:induction false} FlacFoldersPrefix(entries: seq<Path>, j: nat)
    requires j <= |entries|
    ensures FlacFolders(entries[..j]) <= FlacFolders(entries)
    decreases |entries| - j
  {
    if j < |entries| {
      FlacFoldersPrefix(entries, j + 1);
      var longer := entries[..j + 1];
      assert longer[..|longer| - 1] == entries[..j];
    } else {
      assert entries[..j] == entries;
    }
  }

  /** One more entry adds at most its own folder, at the end. */
  lemma FlacFoldersSnoc(init: seq<Path>, x: Path)
    ensures var prev := FlacFolders(init);
      FlacFolders(init + [x]) == if HasFlacSuffix(x) && Parent(x) !in prev then prev + [Parent(x)] else prev
  {
    assert (init + [x])[..|init|] == init;
  }

  /** Entry `i` is a `.flac` file in the `k`-th listed folder, reached
      when exactly `k` folders had been listed. */
  predicate AddedAt(entries: seq<Path>, i: nat, k: nat)
    requires i < |entries| && k < |FlacFolders(entries)|
  {
    && HasFlacSuffix(entries[i])
    && Parent(entries[i]) == FlacFolders(entries)[k]
    && |FlacFolders(entries[..i])| == k
  }

  lemma AddedAtExtend(init: seq<Path>, x: Path, i: nat, k: nat)
    requires i < |init| && k < |FlacFolders(init)|
    requires AddedAt(init, i, k)
    ensures k < |FlacFolders(init + [x])| && AddedAt(init + [x], i, k)
  {
    var entries := init + [x];
    FlacFoldersSnoc(init, x);
    assert FlacFolders(entries)[k] == FlacFolders(init)[k];
    assert entries[..i] == init[..i];
    assert entries[i] == init[i];
  }

  /** First-seen order: the `k`-th listed folder is added by a `.flac`
      entry inside it, reached when exactly `k` folders had been listed
      (and so, by `FlacFoldersPrefix`, exactly the `k` before it). */
  lemma {:induction false} FlacFoldersFirstSeen(entries: seq<Path>, k: nat)
    requires k < |FlacFolders(entries)|
    ensures exists i :: 0 <= i < |entries| && AddedAt(entries, i, k)
    decreases |entries|
  {
    var n := |entries|;
    var init := entries[..n - 1];
    var x := entries[n - 1];
    SplitLast(entries);
    if k < |FlacFolders(init)| {
      FlacFoldersFirstSeen(init, k);
      var i :| 0 <= i < |init| && AddedAt(init, i, k);
      AddedAtExtend(init, x, i, k);
      assert AddedAt(entries, i, k);
    } else {
      AddedAtLast(init, x, k);
      assert AddedAt(entries, n - 1, k);
    }
  }

  /** A folder listed beyond the ones `init` gives is the parent of the
      last entry. */
  lemma AddedAtLast(init: seq<Path>, x: Path, k: nat)
    requires |FlacFolders(init)| <= k < |FlacFolders(init + [x])|
    ensures AddedAt(init + [x], |init|, k)
  {
    var entries := init + [x];
    FlacFoldersSnoc(init, x);
    assert entries[..|init|] == init;
  }

  // ------------------------------------------------- newest first

  /** `x` goes before the first element no newer than it, so that the
      result is ordered by non-increasing modification time. */
  function InsertByMtime(x: Path, sorted: seq<Path>, mtime: Path -> int): (r: seq<Path>)
    ensures multiset(r) == multiset(sorted) + multiset{x}
    decreases |sorted|
  {
    if sorted == [] || mtime(sorted[0]) <= mtime(x) then [x] + sorted
    else
      assert sorted == [sorted[0]] + sorted[1..];
      [sorted[0]] + InsertByMtime(x, sorted[1..], mtime)
  }

  /** `sorted(folders, key=mtime, reverse=True)`. */
  function SortByMtime(folders: seq<Path>, mtime: Path -> int): (r: seq<Path>)
    ensures multiset(r) == multiset(folders)
    decreases |folders|
  {
    if folders == [] then []
    else
      assert folders == [folders[0]] + folders[1..];
      InsertByMtime(folders[0], SortByMtime(folders[1..], mtime), mtime)
  }

  predicate NewestFirst(s: seq<Path>, mtime: Path -> int)
  {
    forall i, j :: 0 <= i < j < |s| ==> mtime(s[i]) >= mtime(s[j])
  }

  /** No modification time in `s` exceeds `bound`. */
  predicate NoNewerThan(s: seq<Path>, mtime: Path -> int, bound: int)
  {
    forall k :: 0 <= k < |s| ==> mtime(s[k]) <= bound
  }

  /** Inserting keeps every modification time within a common bound. */
  lemma {:induction false} InsertBounded(x: Path, sorted: seq<Path>, mtime: Path -> int, bound: int)
    requires mtime(x) <= bound && NoNewerThan(sorted, mtime, bound)
    ensures NoNewerThan(InsertByMtime(x, sorted, mtime), mtime, bound)
    decreases |sorted|
  {
    var r := InsertByMtime(x, sorted, mtime);
    if sorted == [] || mtime(sorted[0]) <= mtime(x) {
      assert r == [x] + sorted;
      assert forall k :: 0 < k < |r| ==> r[k] == sorted[k - 1];
    } else {
      var tail := sorted[1..];
      assert forall k :: 0 <= k < |tail| ==> tail[k] == sorted[k + 1];
      InsertBounded(x, tail, mtime, bound);
      var rest := InsertByMtime(x, tail, mtime);
      assert r == [sorted[0]] + rest;
      assert forall k :: 0 < k < |r| ==> r[k] == rest[k - 1];
    }
  }

  lemma {:induction false} InsertKeepsOrder(x: Path, sorted: seq<Path>, mtime: Path -> int)
    requires NewestFirst(sorted, mtime)
    ensures NewestFirst(InsertByMtime(x, sorted, mtime), mtime)
    decreases |sorted|
  {
    var r := InsertByMtime(x, sorted, mtime);
    if sorted == [] || mtime(sorted[0]) <= mtime(x) {
      assert r == [x] + sorted;
      assert forall k :: 0 < k < |r| ==> r[k] == sorted[k - 1];
    } else {
      var tail := sorted[1..];
      assert forall k :: 0 <= k < |tail| ==> tail[k] == sorted[k + 1];
      InsertKeepsOrder(x, tail, mtime);
      InsertBounded(x, tail, mtime, mtime(sorted[0]));
      var rest := InsertByMtime(x, tail, mtime);
      assert r == [sorted[0]] + rest;
      forall i, j | 0 <= i < j < |r|
        ensures mtime(r[i]) >= mtime(r[j])
      {
        assert r[j] == rest[j - 1];
        if i > 0 {
          assert r[i] == rest[i - 1];
        }
      }
    }
  }

  /** The list of albums shown is the collected list, reordered so that
      modification times never increase. */
  lemma {:induction false} SortByMtimeSorted(folders: seq<Path>, mtime: Path -> int)
    ensures NewestFirst(SortByMtime(folders, mtime), mtime)
    ensures multiset(SortByMtime(folders, mtime)) == multiset(folders)
    decreases |folders|
  {
    if folders != [] {
      SortByMtimeSorted(folders[1..], mtime);
      InsertKeepsOrder(folders[0], SortByMtime(folders[1..], mtime), mtime);
    }
  }

  /** Lines 172-183: the newest folder with `latest`, otherwise the folder
      at the index typed (negative indices count from the end; the index is
      not limited to the `num_albums_to_show` folders displayed). */
  function ChooseAlbum(shown: seq<Path>, latest: bool, answer: string): (r: Result<Path>)
    ensures r.Ok? ==> r.value in shown
    ensures latest ==> (r.Ok? <==> shown != []) && (shown != [] ==> r.value == shown[0])
    ensures latest && shown == [] ==> r == Err(IndexError)
    ensures !latest && ParseInt(answer).None? ==> r == Err(ValueError)
    ensures !latest && ParseInt(answer).Some? ==>
      if InRange(|shown|, ParseInt(answer).value) then r == Ok(PyAt(shown, ParseInt(answer).value)) else r == Err(IndexError)
  {
    if latest then
      if shown == [] then Err(IndexError) else Ok(shown[0])
    else
      match ParseInt(answer)
      case None => Err(ValueError)
      case Some(n) => if InRange(|shown|, n) then Ok(PyAt(shown, n)) else Err(IndexError)
  }

  /** `get_flac_album_path`: `entries` is `flac_albums_dir.rglob("*")`. */
  method GetFlacAlbumPath(entries: seq<Path>, mtime: Path -> int, latest: bool, answer: string) returns (r: Result<Path>)
    ensures r == ChooseAlbum(SortByMtime(FlacFolders(entries), mtime), latest, answer)
  {
    var folders := CollectFlacFolders(entries);
    var shown := SortByMtime(folders, mtime);
    r := ChooseAlbum(shown, latest, answer);
  }

  /** With `latest`, the album chosen is a folder holding a `.flac` file
      and no such folder is newer; it fails only when there is none. */
  lemma LatestIsNewest(entries: seq<Path>, mtime: Path -> int, answer: string)
    ensures var r := ChooseAlbum(SortByMtime(FlacFolders(entries), mtime), true, answer);
      && (r.Err? <==> forall i :: 0 <= i < |entries| ==> !HasFlacSuffix(entries[i]))
      && (r.Ok? ==> SeenFolder(entries, r.value) && forall q :: SeenFolder(entries, q) ==> mtime(r.value) >= mtime(q))
  {
    var folders := FlacFolders(entries);
    var shown := SortByMtime(folders, mtime);
    SortByMtimeSorted(folders, mtime);
    FlacFoldersMembers(entries);
    if shown == [] {
      assert multiset(folders) == multiset{};
      assert folders == [];
      forall i | 0 <= i < |entries|
        ensures !HasFlacSuffix(entries[i])
      {
        assert !SeenFolder(entries, Parent(entries[i]));
      }
    } else {
      assert shown[0] in multiset(shown);
      assert shown[0] in folders;
      forall q | SeenFolder(entries, q)
        ensures mtime(shown[0]) >= mtime(q)
      {
        assert q in multiset(shown);
        var j :| 0 <= j < |shown| && shown[j] == q;
        if j > 0 {
          assert mtime(shown[0]) >= mtime(shown[j]);
        }
      }
      var i :| 0 <= i < |entries| && HasFlacSuffix(entries[i]) && Parent(entries[i]) == shown[0];
    }
  }

  // ------------------------------------------------------------- songs

  /** `[int(x) for x in pieces]`; `None` stands for the first `ValueError`. */
  function ParseAll(pieces: seq<string>): (r: Option<seq<int>>)
    ensures r.Some? <==> forall i :: 0 <= i < |pieces| ==> ParseInt(pieces[i]).Some?
    ensures r.Some? ==> |r.value| == |pieces| && forall i :: 0 <= i < |pieces| ==> Some(r.value[i]) == ParseInt(pieces[i])
    decreases |pieces|
  {
    if pieces == [] then Some([])
    else
      match ParseInt(pieces[0])
      case None => None
      case Some(n) =>
        var tail := pieces[1..];
        assert forall i :: 0 < i < |pieces| ==> tail[i - 1] == pieces[i];
        match ParseAll(tail)
        case None => None
        case Some(rest) =>
          assert forall i :: 0 < i < |pieces| ==> ([n] + rest)[i] == rest[i - 1];
          Some([n] + rest)
  }

  /** `[all[x] for x in picks]`; `None` stands for an `IndexError`. */
  function IndexAll(all: seq<Path>, picks: seq<int>): (r: Option<seq<Path>>)
    ensures r.Some? <==> forall i :: 0 <= i < |picks| ==> InRange(|all|, picks[i])
    ensures r.Some? ==> |r.value| == |picks| && forall i :: 0 <= i < |picks| ==> r.value[i] == PyAt(all, picks[i])
  {
    if forall i :: 0 <= i < |picks| ==> InRange(|all|, picks[i]) then
      Some(seq(|picks|, i requires 0 <= i < |picks| && InRange(|all|, picks[i]) => PyAt(all, picks[i])))
    else None
  }

  /** The indices typed: `int(x)` of every comma-separated piece. */
  predicate AllParse(pieces: seq<string>)
  {
    forall i :: 0 <= i < |pieces| ==> ParseInt(pieces[i]).Some?
  }

  /** Lines 203-215: every file with `entire`, otherwise the files at the
      comma-separated indices typed, in the order `rglob` found them (not
      the sorted order of the names displayed). All indices are parsed
      before any is used, so a `ValueError` wins over an `IndexError`. */
  function PickSongs(all: seq<Path>, entire: bool, answer: string): (r: Result<seq<Path>>)
    ensures entire ==> r == Ok(all)
    ensures !entire && !AllParse(SplitOn(answer, ',')) ==> r == Err(ValueError)
    ensures !entire && AllParse(SplitOn(answer, ',')) ==> var pieces := SplitOn(answer, ',');
      && (r.Ok? <==> forall i :: 0 <= i < |pieces| ==> InRange(|all|, ParseInt(pieces[i]).value))
      && (r.Ok? ==> |r.value| == |pieces| && forall i :: 0 <= i < |pieces| ==> r.value[i] == PyAt(all, ParseInt(pieces[i]).value))
      && (r.Err? ==> r == Err(IndexError))
  {
    var picks := if entire then Some(Range(|all|)) else ParseAll(SplitOn(answer, ','));
    IndexEveryFile(all);
    match picks
    case None => Err(ValueError)
    case Some(picks) =>
      match IndexAll(all, picks)
      case None =>
        var i :| 0 <= i < |picks| && !InRange(|all|, picks[i]);
        assert !entire && ParseInt(SplitOn(answer, ',')[i]) == Some(picks[i]);
        Err(IndexError)
      case Some(songs) => Ok(songs)
  }

  /** `list(range(n))`. */
  function Range(n: nat): (r: seq<int>)
    ensures |r| == n && forall i :: 0 <= i < n ==> r[i] == i
  {
    if n == 0 then [] else Range(n - 1) + [n - 1]
  }

  /** `range(len(all))` picks every file once, in order. */
  lemma IndexEveryFile(all: seq<Path>)
    ensures IndexAll(all, Range(|all|)) == Some(all)
  {
    var picks := Range(|all|);
    assert forall i :: 0 <= i < |picks| ==> InRange(|all|, picks[i]);
    assert IndexAll(all, picks).value == all;
  }

  /** The indices refer to the traversal order: with `b.flac` found before
      `a.flac`, answer `0` picks `b.flac` although `a.flac` is listed first
      on the screen. */
  lemma PicksFollowTraversal(a: Path, b: Path)
    requires Name(a) == "a.flac" && Name(b) == "b.flac"
    ensures PickSongs([b, a], false, "0") == Ok([b])
  {
    assert SplitOn("0", ',') == ["0"] by { SplitWithoutSeparator("0", ','); }
    assert ParseInt("0") == Some(0) by { ParseDecimal(0); assert Decimal(0) == "0"; }
    var r := PickSongs([b, a], false, "0");
    assert r.Ok? && |r.value| == 1 && r.value[0] == b;
    assert r.value == [b];
  }

  // ---------------------------------------------------- yes/no questions

  /** `ask_if_compilation`: the answer is read again until it is `y` or `n`
      in either case; `None` when the input ends first. */
  function CompilationAnswer(lines: seq<string>): (answer: Option<bool>)
    decreases |lines|
  {
    if lines == [] then None
    else if IsYes(lines[0]) then Some(true)
    else if IsNo(lines[0]) then Some(false)
    else CompilationAnswer(lines[1..])
  }

  /** Line `i` is the first that is `y` or `n`. */
  predicate FirstAnswerAt(lines: seq<string>, i: int)
  {
    0 <= i < |lines| && (IsYes(lines[i]) || IsNo(lines[i])) &&
    forall j :: 0 <= j < i ==> !IsYes(lines[j]) && !IsNo(lines[j])
  }

  /** The answer is that of the first line that is `y` or `n`, and there is
      none exactly when no line is. */
  lemma {:induction false} CompilationAnswerFirst(lines: seq<string>)
    ensures CompilationAnswer(lines).None? <==> forall j :: 0 <= j < |lines| ==> !IsYes(lines[j]) && !IsNo(lines[j])
    ensures CompilationAnswer(lines).Some? ==>
      exists i :: FirstAnswerAt(lines, i) && CompilationAnswer(lines).value == IsYes(lines[i])
    decreases |lines|
  {
    if lines != [] && !IsYes(lines[0]) && !IsNo(lines[0]) {
      var rest := lines[1..];
      CompilationAnswerFirst(rest);
      assert forall j :: 0 < j < |lines| ==> lines[j] == rest[j - 1];
      if CompilationAnswer(rest).Some? {
        var i :| FirstAnswerAt(rest, i) && CompilationAnswer(rest).value == IsYes(rest[i]);
        assert lines[i + 1] == rest[i];
        assert FirstAnswerAt(lines, i + 1);
      }
    } else if lines != [] {
      assert FirstAnswerAt(lines, 0);
    }
  }

  /** The loop of lines 190-195; `used` is the number of lines read. */
  method AskIfCompilation(lines: seq<string>) returns (answer: Option<bool>, used: nat)
    ensures answer == CompilationAnswer(lines)
    ensures used <= |lines|
    ensures answer.Some? ==> FirstAnswerAt(lines, used - 1)
    ensures answer.None? ==> used == |lines|
  {
    used := 0;
    while used < |lines|
      invariant used <= |lines|
      invariant forall j :: 0 <= j < used ==> !IsYes(lines[j]) && !IsNo(lines[j])
      invariant CompilationAnswer(lines[used..]) == CompilationAnswer(lines)
    {
      var line := lines[used];
      assert lines[used..][0] == line && lines[used..][1..] == lines[used + 1..];
      used := used + 1;
      if IsYes(line) {
        return Some(true), used;
      } else if IsNo(line) {
        return Some(false), used;
      }
    }
    answer := None;
  }

  /** Lines 148-152: another album is processed only after `y` or `Y`. */
  function MoreAlbums(answer: string): (more: bool)
    ensures more <==> answer == "y" || answer == "Y"
  {
    YesIsOneLetter(answer);
    IsYes(answer)
  }
}
