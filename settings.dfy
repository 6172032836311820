/** The settings of a run (flac2lib.py lines 32-101): the command-line
    options, read in order, and the configuration file, whose values are
    used only for the settings no option has set. Reading the YAML file and
    splitting the command line are outside the model: they arrive as a
    `Config` record and a sequence of recognised options. */
module Settings {
  import opened Common
  import opened Paths

  /** The options `getopt` recognises, with their arguments. */
  datatype Opt =
    | HelpOpt
    | ConfigOpt(file: string)
    | EntireOpt
    | SourceOpt(source: string)
    | NumberOpt(number: string)
    | DestinationOpt(destination: string)
    | LatestOpt
    | SkipCoverArtOpt
    | SkipDirPromptsOpt
    | CompilationOpt
    | NotCompilationOpt

  /** The variables of lines 38-45; `None` stands for Python's `None`,
      that is, not set by any option. */
  datatype Flags = Flags(
    configFile: string,
    source: Option<Path>,
    destination: Option<Path>,
    entire: Option<bool>,
    latest: Option<bool>,
    coverArt: Option<bool>,
    dirPrompts: Option<bool>,
    isCompilation: Option<bool>)

  const DefaultFlags := Flags("config.yaml", None, None, None, None, None, None, None)

  /** One pass of the loop of lines 47-84, for an option other than help.
      `-n`/`--number` is accepted and ignored. */
  function ApplyOpt(f: Flags, opt: Opt): Flags
    requires opt != HelpOpt
  {
    match opt
    case ConfigOpt(file) => f.(configFile := file)
    case EntireOpt => f.(entire := Some(true))
    case SourceOpt(arg) => f.(source := Some(Parse(arg)))
    case NumberOpt(_) => f
    case DestinationOpt(arg) => f.(destination := Some(Parse(arg)))
    case LatestOpt => f.(latest := Some(true))
    case SkipCoverArtOpt => f.(coverArt := Some(false))
    case SkipDirPromptsOpt => f.(dirPrompts := Some(false))
    case CompilationOpt => f.(isCompilation := Some(true))
    case NotCompilationOpt => f.(isCompilation := Some(false))
  }

  /** The flags after the options in `opts`, or `None` once help has been
      asked for (the script prints the help and returns). */
  function ScanOpts(opts: seq<Opt>): Option<Flags>
    decreases |opts|
  {
    if opts == [] then Some(DefaultFlags)
    else
      match ScanOpts(opts[..|opts| - 1])
      case None => None
      case Some(f) =>
        var last := opts[|opts| - 1];
        if last == HelpOpt then None else Some(ApplyOpt(f, last))
  }

  /** The loop of lines 47-84, returning at the first help option. */
  method ParseOpts(opts: seq<Opt>) returns (flags: Option<Flags>)
    ensures flags == ScanOpts(opts)
  {
    var f := DefaultFlags;
    var i := 0;
    while i < |opts|
      invariant 0 <= i <= |opts|
      invariant ScanOpts(opts[..i]) == Some(f)
    {
      var opt := opts[i];
      assert opts[..i + 1][..i] == opts[..i];
      if opt == HelpOpt {
        HelpStops(opts[..i + 1], opts[i + 1..]);
        assert opts[..i + 1] + opts[i + 1..] == opts;
        return None;
      }
      f := ApplyOpt(f, opt);
      i := i + 1;
    }
    assert opts[..|opts|] == opts;
    flags := Some(f);
  }

  /** After help nothing else is read. */
  lemma {:induction false} HelpStops(opts: seq<Opt>, more: seq<Opt>)
    requires ScanOpts(opts).None?
    ensures ScanOpts(opts + more).None?
    decreases |more|
  {
    if more != [] {
      var init := opts + more[..|more| - 1];
      HelpStops(opts, more[..|more| - 1]);
      assert (opts + more)[..|opts + more| - 1] == init;
    } else {
      assert opts + more == opts;
    }
  }

  /** The run goes on exactly when no option asks for help. */
  lemma {:induction false} HelpWins(opts: seq<Opt>)
    ensures ScanOpts(opts).None? <==> HelpOpt in opts
    decreases |opts|
  {
    if opts != [] {
      var init := opts[..|opts| - 1];
      HelpWins(init);
      SplitLast(opts);
    }
  }

  /** A later option overrides an earlier one of the same kind: the value
      a setting ends with is the one its last option gave it. */
  lemma LastOptionWins(opts: seq<Opt>, f: Flags, arg: string)
    requires ScanOpts(opts) == Some(f)
    ensures ScanOpts(opts + [SourceOpt(arg)]) == Some(f.(source := Some(Parse(arg))))
    ensures ScanOpts(opts + [DestinationOpt(arg)]) == Some(f.(destination := Some(Parse(arg))))
    ensures ScanOpts(opts + [ConfigOpt(arg)]) == Some(f.(configFile := arg))
    ensures ScanOpts(opts + [CompilationOpt]) == Some(f.(isCompilation := Some(true)))
    ensures ScanOpts(opts + [NotCompilationOpt]) == Some(f.(isCompilation := Some(false)))
    ensures ScanOpts(opts + [NumberOpt(arg)]) == Some(f)
  {
    assert (opts + [SourceOpt(arg)])[..|opts|] == opts;
    assert (opts + [DestinationOpt(arg)])[..|opts|] == opts;
    assert (opts + [ConfigOpt(arg)])[..|opts|] == opts;
    assert (opts + [CompilationOpt])[..|opts|] == opts;
    assert (opts + [NotCompilationOpt])[..|opts|] == opts;
    assert (opts + [NumberOpt(arg)])[..|opts|] == opts;
  }

  /** An option can only switch its setting one way: `-e` and `-l` only
      turn on, the two skip options only turn off. */
  lemma {:induction false} OptionsSetOneWay(opts: seq<Opt>)
    requires ScanOpts(opts).Some?
    ensures var f := ScanOpts(opts).value;
      && (f.entire.Some? ==> f.entire.value)
      && (f.latest.Some? ==> f.latest.value)
      && (f.coverArt.Some? ==> !f.coverArt.value)
      && (f.dirPrompts.Some? ==> !f.dirPrompts.value)
    decreases |opts|
  {
    if opts != [] {
      OptionsSetOneWay(opts[..|opts| - 1]);
    }
  }

  // ------------------------------------------------ the configuration

  /** The keys of the configuration file the script reads, lines 86-101. */
  datatype Config = Config(
    flacAlbumsDir: string,
    dstAlbumsDir: string,
    entire: bool,
    numAlbumsToShow: int,
    dirNamePrompts: bool,
    latest: bool,
    getCoverArt: bool,
    defaultCoverArtName: string,
    coverArtSuffixes: seq<string>,
    destinationFormat: string,
    ffmpegParams: string)

  /** Everything `process_album` is called with. */
  datatype Settings = Settings(
    source: Option<Path>,
    flacAlbumsDir: Path,
    numAlbumsToShow: int,
    latest: bool,
    isCompilation: Option<bool>,
    entire: bool,
    dstAlbumsDir: Path,
    dirPrompts: bool,
    coverArt: bool,
    destination: Option<Path>,
    defaultCoverArtName: string,
    coverArtSuffixes: seq<string>,
    ffmpegParams: string,
    dstFormat: string)

  /** `if flag is None: flag = config[key]`. */
  function Override<T>(flag: Option<T>, fallback: T): (v: T)
    ensures flag.Some? ==> v == flag.value
    ensures flag.None? ==> v == fallback
  {
    if flag.Some? then flag.value else fallback
  }

  /** Lines 87-101. The source, the destination and the compilation
      answer have no configuration key and stay unset unless given. */
  function Merge(f: Flags, c: Config): (s: Settings)
    ensures s.source == f.source && s.destination == f.destination && s.isCompilation == f.isCompilation
    ensures s.flacAlbumsDir == Parse(c.flacAlbumsDir) && s.dstAlbumsDir == Parse(c.dstAlbumsDir)
    ensures WellFormed(s.flacAlbumsDir) && WellFormed(s.dstAlbumsDir)
    ensures s.numAlbumsToShow == c.numAlbumsToShow && s.defaultCoverArtName == c.defaultCoverArtName
    ensures s.coverArtSuffixes == c.coverArtSuffixes
    ensures s.dstFormat == c.destinationFormat && s.ffmpegParams == c.ffmpegParams
  {
    Settings(
      f.source, Parse(c.flacAlbumsDir), c.numAlbumsToShow,
      Override(f.latest, c.latest), f.isCompilation,
      Override(f.entire, c.entire), Parse(c.dstAlbumsDir),
      Override(f.dirPrompts, c.dirNamePrompts), Override(f.coverArt, c.getCoverArt),
      f.destination, c.defaultCoverArtName, c.coverArtSuffixes, c.ffmpegParams, c.destinationFormat)
  }

  /** The configuration decides a switch exactly when no option set it:
      without options every switch is the configuration's, and `-e`, `-l`,
      `--skip-cover-art` and `--skip-dir-prompts` win over it. */
  lemma ConfigOnlyWhenUnset(opts: seq<Opt>, c: Config)
    requires ScanOpts(opts).Some?
    ensures var s := Merge(ScanOpts(opts).value, c);
      && (EntireOpt in opts ==> s.entire)
      && (LatestOpt in opts ==> s.latest)
      && (SkipCoverArtOpt in opts ==> !s.coverArt)
      && (SkipDirPromptsOpt in opts ==> !s.dirPrompts)
      && (EntireOpt !in opts ==> s.entire == c.entire)
      && (LatestOpt !in opts ==> s.latest == c.latest)
      && (SkipCoverArtOpt !in opts ==> s.coverArt == c.getCoverArt)
      && (SkipDirPromptsOpt !in opts ==> s.dirPrompts == c.dirNamePrompts)
  {
    SwitchesSetBy(opts);
    OptionsSetOneWay(opts);
    var f := ScanOpts(opts).value;
    var s := Merge(f, c);
    assert s.entire == Override(f.entire, c.entire) && s.latest == Override(f.latest, c.latest);
    assert s.coverArt == Override(f.coverArt, c.getCoverArt) && s.dirPrompts == Override(f.dirPrompts, c.dirNamePrompts);
  }

  /** A switch is set exactly when its option was given. */
  lemma {:induction false} SwitchesSetBy(opts: seq<Opt>)
    requires ScanOpts(opts).Some?
    ensures var f := ScanOpts(opts).value;
      && (f.entire.Some? <==> EntireOpt in opts)
      && (f.latest.Some? <==> LatestOpt in opts)
      && (f.coverArt.Some? <==> SkipCoverArtOpt in opts)
      && (f.dirPrompts.Some? <==> SkipDirPromptsOpt in opts)
    decreases |opts|
  {
    if opts != [] {
      var init := opts[..|opts| - 1];
      SwitchesSetBy(init);
      SplitLast(opts);
    }
  }
}
