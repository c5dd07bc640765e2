/**
 * What one run of the `yang` command does (yang.go:78-175), as a function of
 * the format registry, the parsed command line, the operating system's
 * answers and the schema library.  A run is the sequence of observable
 * events it produces and the exit status it ends with.  `Driver.Yang.Run`
 * is proved to produce exactly `RunSpec`; the lemmas below state what the
 * command promises about every run.
 */
module Pipeline {
  import opened Wrappers
  import opened Strings
  import opened Sorting
  import opened Schema
  import opened Selection

  /** The format used when `--format` is not given (yang.go:79). */
  const DEFAULT_FORMAT := "tree"

  /** The extension that tells a file argument from a module name (yang.go:124). */
  const YANG_SUFFIX := ".yang"

  /** The source name under which standard input is parsed (yang.go:139). */
  const STDIN_SOURCE := "<STDIN>"

  /**
   * A registered output format (yang.go:53-57).  `render` identifies the
   * format's render function, whose output is not modelled.
   */
  datatype Formatter = Formatter(name: string, render: nat, help: string)

  /** Every formatter is filed under its own name, as `register` files them. */
  ghost predicate Keyed(reg: map<string, Formatter>)
  {
    forall k :: k in reg ==> reg[k].name == k
  }

  /** The parsed command line: `--help`, `--format`, `--trace`, `--path` and the positional arguments. */
  datatype Options = Options(help: bool, format: Option<string>, trace: string, path: seq<string>, args: seq<string>)

  /** The operating system's answers: the result of creating the trace file, and standard input. */
  datatype Env = Env(traceCreate: Option<Error>, stdin: Result<string, Error>)

  /** What a run does that can be observed, in order. */
  datatype Event =
    | TraceStarted(file: string)                          // trace.Start on the created file
    | Usage                                               // usage text and the "Formats:" heading
    | FormatHelp(name: string, help: string)              // one line of the format list
    | InvalidFormat(format: string, choices: seq<string>) // the invalid-format message
    | ErrorLine(err: Error)                               // one error written to standard error
    | GetModule(name: string, files: seq<string>)         // yang.GetModule is called
    | ReadStdin                                           // standard input is read
    | ReadFile(name: string)                              // ms.Read(name) is called
    | Process                                             // ms.Process() is called
    | WriteTree(entry: Entry)                             // Write(os.Stdout, e)
    | Render(formatter: Formatter, entries: seq<Entry>)   // the formatter's function is called

  /** The events of a run and its exit status. */
  datatype Outcome = Outcome(events: seq<Event>, status: int)

  /** The input mode the positional arguments select (yang.go:124 and yang.go:136). */
  datatype Mode =
    | NamedModule(name: string, files: seq<string>)
    | StdinMode
    | FileList(files: seq<string>)

  function ModeOf(args: seq<string>): Mode
  {
    if |args| > 0 && !HasSuffix(args[0], YANG_SUFFIX) then NamedModule(args[0], args[1..])
    else if args == [] then StdinMode
    else FileList(args)
  }

  function FormatOf(opts: Options): string
  {
    if opts.format.Some? then opts.format.value else DEFAULT_FORMAT
  }

  /** `os.Create(traceP)` was attempted and failed (yang.go:95-100). */
  predicate TraceFails(opts: Options, env: Env)
  {
    opts.trace != "" && env.traceCreate.Some?
  }

  /** The run gets past the trace, help and format checks to the input modes. */
  predicate Dispatched(reg: map<string, Formatter>, opts: Options, env: Env)
  {
    !TraceFails(opts, env) && !opts.help && FormatOf(opts) in reg
  }

  predicate IsInput(e: Event)
  {
    e.GetModule? || e.ReadStdin? || e.ReadFile?
  }

  predicate IsOutput(e: Event)
  {
    e.WriteTree? || e.Render?
  }

  /** exitIfError's loop (yang.go:69-71): one line per error, in order. */
  function ErrorLines(errs: seq<Error>): (lines: seq<Event>)
    ensures |lines| == |errs|
    ensures forall i :: 0 <= i < |errs| ==> lines[i] == ErrorLine(errs[i])
  {
    if errs == [] then [] else [ErrorLine(errs[0])] + ErrorLines(errs[1..])
  }

  /** The format list printed by --help (yang.go:109-112). */
  function HelpLines(reg: map<string, Formatter>, formats: seq<string>): (lines: seq<Event>)
    requires forall fn :: fn in formats ==> fn in reg
    ensures |lines| == |formats|
    ensures forall i :: 0 <= i < |formats| ==> lines[i] == FormatHelp(reg[formats[i]].name, reg[formats[i]].help)
  {
    if formats == [] then []
    else [FormatHelp(reg[formats[0]].name, reg[formats[0]].help)] + HelpLines(reg, formats[1..])
  }

  lemma AppendAssociative(a: seq<Event>, b: seq<Event>, c: seq<Event>)
    ensures a + b + c == a + (b + c)
  {
  }

  lemma ErrorLinesSnoc(errs: seq<Error>, e: Error)
    ensures ErrorLines(errs + [e]) == ErrorLines(errs) + [ErrorLine(e)]
  {
    var l, r := ErrorLines(errs + [e]), ErrorLines(errs) + [ErrorLine(e)];
    assert |l| == |r|;
    forall i | 0 <= i < |l| ensures l[i] == r[i] {
      assert (errs + [e])[i] == if i < |errs| then errs[i] else e;
    }
  }

  lemma HelpLinesSnoc(reg: map<string, Formatter>, formats: seq<string>, fn: string)
    requires forall n :: n in formats ==> n in reg
    requires fn in reg
    ensures HelpLines(reg, formats + [fn]) == HelpLines(reg, formats) + [FormatHelp(reg[fn].name, reg[fn].help)]
  {
    var all := formats + [fn];
    var l, r := HelpLines(reg, all), HelpLines(reg, formats) + [FormatHelp(reg[fn].name, reg[fn].help)];
    assert |l| == |r|;
    forall i | 0 <= i < |l| ensures l[i] == r[i] {
      assert all[i] == if i < |formats| then formats[i] else fn;
    }
  }

  /** One turn of the file loop (yang.go:148-151): read, and report a failure. */
  function ReadStep(lib: Library, ms: ModuleSet, name: string): (ModuleSet, seq<Event>)
  {
    var err := lib.read(ms, name);
    (ms.After(ReadCall(name)), [ReadFile(name)] + if err.Some? then [ErrorLine(err.value)] else [])
  }

  /** The file loop (yang.go:147-152) over `files`, from model set `ms`. */
  function ReadAll(lib: Library, ms: ModuleSet, files: seq<string>): (ModuleSet, seq<Event>)
    decreases |files|
  {
    if files == [] then (ms, [])
    else
      var (before, events) := ReadAll(lib, ms, files[..|files| - 1]);
      var (after, more) := ReadStep(lib, before, files[|files| - 1]);
      (after, events + more)
  }

  /** The model set once every input has been loaded, when loading does not stop the run. */
  function Loaded(opts: Options, env: Env, lib: Library): ModuleSet
  {
    var empty := NewModules(opts.path);
    if opts.args == [] then
      if env.stdin.Success? then empty.After(ParseCall(env.stdin.value, STDIN_SOURCE)) else empty
    else ReadAll(lib, empty, opts.args).0
  }

  /** Processing, selection and rendering (yang.go:155-174). */
  ghost function Finish(f: Formatter, lib: Library, ms: ModuleSet): Outcome
  {
    var errs := lib.process(ms);
    if errs != [] then Outcome([Process] + ErrorLines(errs), 1)
    else Outcome([Process, Render(f, TopLevel(lib.modules(ms.After(ProcessCall)), lib.toEntry))], 0)
  }

  /** Named-module mode (yang.go:124-129): look the module up and write its tree. */
  ghost function ShowModule(path: seq<string>, name: string, files: seq<string>, lib: Library): Outcome
  {
    var (e, errs) := lib.getModule(path, name, files);
    if errs != [] then Outcome([GetModule(name, files)] + ErrorLines(errs), 1)
    else Outcome([GetModule(name, files), WriteTree(e)], 0)
  }

  /** Standard-input mode (yang.go:136-145), then processing and rendering. */
  ghost function FromStdin(f: Formatter, opts: Options, env: Env, lib: Library): Outcome
  {
    var empty := NewModules(opts.path);
    if env.stdin.Failure? then Outcome([ReadStdin, ErrorLine(env.stdin.error)], 1)
    else
      var err := lib.parse(empty, env.stdin.value, STDIN_SOURCE);
      if err.Some? then Outcome([ReadStdin, ErrorLine(err.value)], 1)
      else
        var r := Finish(f, lib, empty.After(ParseCall(env.stdin.value, STDIN_SOURCE)));
        Outcome([ReadStdin] + r.events, r.status)
  }

  /** File-list mode (yang.go:147-152), then processing and rendering. */
  ghost function FromFiles(f: Formatter, opts: Options, lib: Library): Outcome
  {
    var (ms, events) := ReadAll(lib, NewModules(opts.path), opts.args);
    var r := Finish(f, lib, ms);
    Outcome(events + r.events, r.status)
  }

  /** The three input modes (yang.go:122-174), with `f` the validated formatter. */
  ghost function Load(f: Formatter, opts: Options, env: Env, lib: Library): Outcome
  {
    match ModeOf(opts.args)
    case NamedModule(name, files) => ShowModule(opts.path, name, files, lib)
    case StdinMode => FromStdin(f, opts, env, lib)
    case FileList(_) => FromFiles(f, opts, lib)
  }

  /**
   * The help and format checks (yang.go:106-120): how the run ends when one
   * of them stops it, or `None` when it goes on to the input modes.
   */
  ghost function Checks(reg: map<string, Formatter>, opts: Options): Option<Outcome>
  {
    if opts.help then Some(Outcome([Usage] + FormatList(reg), 0))
    else if FormatOf(opts) !in reg then Some(Outcome([InvalidFormat(FormatOf(opts), SortedSet(reg.Keys))], 1))
    else None
  }

  /** The format list `--help` prints: every registered format, in ascending order of name. */
  ghost function FormatList(reg: map<string, Formatter>): seq<Event>
  {
    SortedSetIsSorted(reg.Keys);
    HelpLines(reg, SortedSet(reg.Keys))
  }

  /** Everything after the trace has started (yang.go:106-174). */
  ghost function AfterTrace(reg: map<string, Formatter>, opts: Options, env: Env, lib: Library): Outcome
  {
    var stopped := Checks(reg, opts);
    if stopped.Some? then stopped.value
    else Load(reg[FormatOf(opts)], opts, env, lib)
  }

  /** A whole run of `main` (yang.go:78-175). */
  ghost function RunSpec(reg: map<string, Formatter>, opts: Options, env: Env, lib: Library): Outcome
  {
    if TraceFails(opts, env) then Outcome([ErrorLine(env.traceCreate.value)], 1)
    else
      var r := AfterTrace(reg, opts, env, lib);
      Outcome(TracePrefix(opts) + r.events, r.status)
  }

  /** What happens before the checks when the trace file can be created: tracing starts if asked for. */
  function TracePrefix(opts: Options): seq<Event>
  {
    if opts.trace != "" then [TraceStarted(opts.trace)] else []
  }
}
