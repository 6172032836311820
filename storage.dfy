/** The destination file tree as the script sees it: which file paths exist
    and what was written to them. Directories are not tracked: the
    conversions and the copies of further images create every missing
    parent first, while the main-cover copy and the cover download, which
    create only the destination folder, write only a target directly
    inside that folder. */
module Storage {
  import opened Paths

  datatype FileContent =
    | Original(id: nat)
    | Copied(source: Path)
    | Downloaded(link: string)
    | Encoded(source: Path, format: string, parameters: seq<string>, tags: map<string, string>)

  type Files = map<Path, FileContent>

  /** Every file of `before` is still there, unchanged, in `after`. */
  predicate Keeps(before: Files, after: Files)
  {
    forall p :: p in before ==> p in after && after[p] == before[p]
  }

  /** `if not target.exists(): write(target)`. */
  function WriteIfAbsent(files: Files, target: Path, content: FileContent): (r: Files)
    ensures r.Keys == files.Keys + {target}
    ensures forall p :: p in files ==> r[p] == files[p]
    ensures target !in files ==> r[target] == content
  {
    if target in files then files else files[target := content]
  }

  /** One write the script performs only when its target is missing:
      `source` is what the script reports it processed. */
  datatype Job = Job(source: Path, target: Path, content: FileContent)

  /** The files after the jobs have run one after the other. */
  function RunJobs(files: Files, jobs: seq<Job>): Files
    decreases |jobs|
  {
    if jobs == [] then files
    else RunJobs(WriteIfAbsent(files, jobs[0].target, jobs[0].content), jobs[1..])
  }

  /** The jobs that actually wrote, in order. */
  function Performed(files: Files, jobs: seq<Job>): seq<Job>
    decreases |jobs|
  {
    if jobs == [] then []
    else
      var rest := Performed(WriteIfAbsent(files, jobs[0].target, jobs[0].content), jobs[1..]);
      if jobs[0].target in files then rest else [jobs[0]] + rest
  }

  /** One step of a loop that runs `jobs` in order, at position `i`. */
  lemma RunJobsStep(files: Files, jobs: seq<Job>, i: nat)
    requires i < |jobs|
    ensures RunJobs(files, jobs[i..]) == RunJobs(WriteIfAbsent(files, jobs[i].target, jobs[i].content), jobs[i + 1..])
    ensures Performed(files, jobs[i..]) ==
      (if jobs[i].target in files then [] else [jobs[i]]) + Performed(WriteIfAbsent(files, jobs[i].target, jobs[i].content), jobs[i + 1..])
  {
    assert jobs[i..][1..] == jobs[i + 1..];
  }

  /** One pass of a loop running `jobs` from `start`: what is left to run
      still leads to the same files, and the writes done so far followed by
      the writes still to come are the writes of the whole run. */
  lemma RunJobsAdvance(start: Files, jobs: seq<Job>, i: nat, before: Files, done: seq<Job>)
    requires i < |jobs|
    requires RunJobs(before, jobs[i..]) == RunJobs(start, jobs)
    requires done + Performed(before, jobs[i..]) == Performed(start, jobs)
    ensures var after := WriteIfAbsent(before, jobs[i].target, jobs[i].content);
      var wrote := if jobs[i].target in before then done else done + [jobs[i]];
      RunJobs(after, jobs[i + 1..]) == RunJobs(start, jobs) &&
      wrote + Performed(after, jobs[i + 1..]) == Performed(start, jobs)
  {
    RunJobsStep(before, jobs, i);
    var after := WriteIfAbsent(before, jobs[i].target, jobs[i].content);
    var rest := Performed(after, jobs[i + 1..]);
    if jobs[i].target in before {
      assert Performed(before, jobs[i..]) == [] + rest == rest;
    } else {
      assert Performed(before, jobs[i..]) == [jobs[i]] + rest;
      assert done + ([jobs[i]] + rest) == (done + [jobs[i]]) + rest;
    }
  }

  /** Running write-if-absent jobs leaves every existing file as it was,
      creates every target, and every new file is the content of a job
      aimed at it. */
  lemma {:induction false} RunJobsEffect(files: Files, jobs: seq<Job>)
    ensures var after := RunJobs(files, jobs);
      && (forall p :: p in files ==> p in after && after[p] == files[p])
      && (forall i :: 0 <= i < |jobs| ==> jobs[i].target in after)
      && (forall p :: p in after && p !in files ==>
            exists i :: 0 <= i < |jobs| && jobs[i].target == p && after[p] == jobs[i].content)
    decreases |jobs|
  {
    if jobs != [] {
      var next := WriteIfAbsent(files, jobs[0].target, jobs[0].content);
      RunJobsEffect(next, jobs[1..]);
      var after := RunJobs(files, jobs);
      forall i | 0 <= i < |jobs|
        ensures jobs[i].target in after
      {
        if i > 0 {
          assert jobs[i] == jobs[1..][i - 1];
        }
      }
      forall p | p in after && p !in files
        ensures exists i :: 0 <= i < |jobs| && jobs[i].target == p && after[p] == jobs[i].content
      {
        if p in next {
          assert p == jobs[0].target;
        } else {
          var j :| 0 <= j < |jobs[1..]| && jobs[1..][j].target == p && after[p] == jobs[1..][j].content;
          assert jobs[1..][j] == jobs[j + 1];
        }
      }
    }
  }

  /** A job writes only when its target did not exist before the run. */
  lemma {:induction false} PerformedOnlyMissing(files: Files, jobs: seq<Job>)
    ensures var done := Performed(files, jobs);
      |done| <= |jobs| && forall k :: 0 <= k < |done| ==> done[k] in jobs && done[k].target !in files
    decreases |jobs|
  {
    if jobs != [] {
      var next := WriteIfAbsent(files, jobs[0].target, jobs[0].content);
      PerformedOnlyMissing(next, jobs[1..]);
      var rest := Performed(next, jobs[1..]);
      forall k | 0 <= k < |rest|
        ensures rest[k] in jobs && rest[k].target !in files
      {
        assert rest[k] in jobs[1..];
      }
    }
  }

  /** When every target exists, nothing is written. */
  lemma {:induction false} RunJobsWhenAllPresent(files: Files, jobs: seq<Job>)
    requires forall i :: 0 <= i < |jobs| ==> jobs[i].target in files
    ensures RunJobs(files, jobs) == files
    ensures Performed(files, jobs) == []
    decreases |jobs|
  {
    if jobs != [] {
      assert WriteIfAbsent(files, jobs[0].target, jobs[0].content) == files;
      forall i | 0 <= i < |jobs[1..]|
        ensures jobs[1..][i].target in files
      {
        assert jobs[1..][i] == jobs[i + 1];
      }
      RunJobsWhenAllPresent(files, jobs[1..]);
    }
  }

  /** Running the same jobs a second time writes nothing. */
  lemma RunJobsIdempotent(files: Files, jobs: seq<Job>)
    ensures RunJobs(RunJobs(files, jobs), jobs) == RunJobs(files, jobs)
    ensures Performed(RunJobs(files, jobs), jobs) == []
  {
    RunJobsEffect(files, jobs);
    RunJobsWhenAllPresent(RunJobs(files, jobs), jobs);
  }

  /** The files on disk, shared by the cover-art copies and the encoder. */
  class FileSystem {
    var files: Files

    constructor (initial: Files)
      ensures files == initial
    {
      files := initial;
    }
  }
}
