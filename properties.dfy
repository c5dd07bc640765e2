/**
 * What every run of the `yang` command promises, stated about `RunSpec`,
 * the function `Driver.Yang.Run` is proved to follow: the order of the
 * early exits, the exit statuses, which input mode the arguments select,
 * that every listed file is read, and that the chosen formatter is called
 * exactly once, and only on success.
 */
module Properties {
  import opened Wrappers
  import opened Strings
  import opened Sorting
  import opened Schema
  import opened Selection
  import opened Pipeline

  /** The names of the files read, in the order they were read. */
  function ReadNames(events: seq<Event>): seq<string>
  {
    if events == [] then [] else ReadName(events[0]) + ReadNames(events[1..])
  }

  function ReadName(e: Event): seq<string>
  {
    if e.ReadFile? then [e.name] else []
  }

  /** The format names listed, in the order they were printed. */
  function HelpNames(events: seq<Event>): seq<string>
  {
    if events == [] then [] else HelpName(events[0]) + HelpNames(events[1..])
  }

  function HelpName(e: Event): seq<string>
  {
    if e.FormatHelp? then [e.name] else []
  }

  /** How many times a formatter was called. */
  function RenderCount(events: seq<Event>): nat
  {
    if events == [] then 0 else (if events[0].Render? then 1 else 0) + RenderCount(events[1..])
  }

  lemma {:induction false} ReadNamesAppend(a: seq<Event>, b: seq<Event>)
    ensures ReadNames(a + b) == ReadNames(a) + ReadNames(b)
  {
    if a == [] {
      assert a + b == b;
    } else {
      assert (a + b)[0] == a[0] && (a + b)[1..] == a[1..] + b;
      ReadNamesAppend(a[1..], b);
    }
  }

  lemma {:induction false} HelpNamesAppend(a: seq<Event>, b: seq<Event>)
    ensures HelpNames(a + b) == HelpNames(a) + HelpNames(b)
  {
    if a == [] {
      assert a + b == b;
    } else {
      assert (a + b)[0] == a[0] && (a + b)[1..] == a[1..] + b;
      HelpNamesAppend(a[1..], b);
    }
  }

  lemma {:induction false} RenderCountAppend(a: seq<Event>, b: seq<Event>)
    ensures RenderCount(a + b) == RenderCount(a) + RenderCount(b)
  {
    if a == [] {
      assert a + b == b;
    } else {
      assert (a + b)[0] == a[0] && (a + b)[1..] == a[1..] + b;
      RenderCountAppend(a[1..], b);
    }
  }

  lemma {:induction false} NoReads(events: seq<Event>)
    requires forall e :: e in events ==> !e.ReadFile?
    ensures ReadNames(events) == []
  {
    if events != [] {
      assert events[0] in events;
      assert forall e :: e in events[1..] ==> e in events;
      NoReads(events[1..]);
    }
  }

  lemma {:induction false} NoRenders(events: seq<Event>)
    requires forall e :: e in events ==> !e.Render?
    ensures RenderCount(events) == 0
  {
    if events != [] {
      assert events[0] in events;
      assert forall e :: e in events[1..] ==> e in events;
      NoRenders(events[1..]);
    }
  }

  /** exitIfError writes nothing but error lines. */
  lemma ErrorLinesAreErrors(errs: seq<Error>)
    ensures forall e :: e in ErrorLines(errs) ==> e.ErrorLine?
  {
    var lines := ErrorLines(errs);
    forall e | e in lines ensures e.ErrorLine? {
      var i :| 0 <= i < |lines| && lines[i] == e;
    }
  }

  /** The format list is made of format lines only, naming the registered formats in ascending order. */
  lemma FormatListIsHelp(reg: map<string, Formatter>)
    requires Keyed(reg)
    ensures forall e :: e in FormatList(reg) ==> e.FormatHelp?
    ensures HelpNames(FormatList(reg)) == SortedSet(reg.Keys)
  {
    SortedSetIsSorted(reg.Keys);
    var formats := SortedSet(reg.Keys);
    assert forall fn :: fn in formats ==> fn in Elems(formats);
    HelpLinesNames(reg, formats);
  }

  /**
   * The help text lists the name of every registered format once, in
   * ascending order, and prints nothing else (yang.go:80-84 and 109-112).
   */
  lemma FormatListNamesEveryFormat(reg: map<string, Formatter>)
    requires Keyed(reg)
    ensures forall e :: e in FormatList(reg) ==> e.FormatHelp?
    ensures StrictlySorted(HelpNames(FormatList(reg))) && Elems(HelpNames(FormatList(reg))) == reg.Keys
  {
    FormatListIsHelp(reg);
    SortedSetIsSorted(reg.Keys);
  }

  lemma {:induction false} HelpLinesNames(reg: map<string, Formatter>, formats: seq<string>)
    requires Keyed(reg)
    requires forall fn :: fn in formats ==> fn in reg
    ensures forall e :: e in HelpLines(reg, formats) ==> e.FormatHelp?
    ensures HelpNames(HelpLines(reg, formats)) == formats
  {
    if formats != [] {
      var head := [FormatHelp(reg[formats[0]].name, reg[formats[0]].help)];
      assert forall fn :: fn in formats[1..] ==> fn in formats;
      HelpLinesNames(reg, formats[1..]);
      HelpNamesAppend(head, HelpLines(reg, formats[1..]));
      assert HelpNames(head) == [formats[0]];
      assert formats == [formats[0]] + formats[1..];
    }
  }

  /**
   * The file loop reads every listed file, in order, whether or not earlier
   * reads failed, writes nothing but the reads and their error lines, and
   * makes one read call per file on the model set (yang.go:147-152); each
   * read is followed by its own error exactly when it failed (`ReadAllBlocks`).
   */
  lemma ReadAllReadsEveryFile(lib: Library, ms: ModuleSet, files: seq<string>)
    ensures ReadNames(ReadAll(lib, ms, files).1) == files
    ensures forall e :: e in ReadAll(lib, ms, files).1 ==> e.ReadFile? || e.ErrorLine?
    ensures ReadAll(lib, ms, files).0.path == ms.path
    ensures |ReadAll(lib, ms, files).0.calls| == |ms.calls| + |files|
    ensures forall i :: 0 <= i < |files| ==> ReadAll(lib, ms, files).0.calls[|ms.calls| + i] == ReadCall(files[i])
    ensures ReadAll(lib, ms, files).0.calls[..|ms.calls|] == ms.calls
    ensures ReadAll(lib, ms, files).1 == Concat(BlocksOf(lib, ms, files))
  {
    ReadAllEvents(lib, ms, files);
    ReadAllCalls(lib, ms, files);
    ReadAllBlocks(lib, ms, files);
  }

  lemma ReadAllEvents(lib: Library, ms: ModuleSet, files: seq<string>)
    ensures ReadNames(ReadAll(lib, ms, files).1) == files
    ensures forall e :: e in ReadAll(lib, ms, files).1 ==> e.ReadFile? || e.ErrorLine?
  {
    ReadAllNames(lib, ms, files);
    ReadAllKinds(lib, ms, files);
  }

  lemma {:induction false} ReadAllNames(lib: Library, ms: ModuleSet, files: seq<string>)
    ensures ReadNames(ReadAll(lib, ms, files).1) == files
    decreases |files|
  {
    if files != [] {
      var init, last := files[..|files| - 1], files[|files| - 1];
      ReadAllNames(lib, ms, init);
      var events := ReadAll(lib, ms, init).1;
      var more := ReadStep(lib, ReadAll(lib, ms, init).0, last).1;
      assert ReadAll(lib, ms, files).1 == events + more;
      ReadNamesAppend(events, more);
      ReadStepNames(lib, ReadAll(lib, ms, init).0, last);
      assert files == init + [last];
    }
  }

  lemma ReadStepNames(lib: Library, ms: ModuleSet, name: string)
    ensures ReadNames(ReadStep(lib, ms, name).1) == [name]
    ensures forall e :: e in ReadStep(lib, ms, name).1 ==> e.ReadFile? || e.ErrorLine?
  {
    var err := lib.read(ms, name);
    var tail := if err.Some? then [ErrorLine(err.value)] else [];
    ReadNamesAppend([ReadFile(name)], tail);
    assert ReadNames(tail) == [];
    assert ReadNames([ReadFile(name)]) == [name];
  }

  lemma {:induction false} ReadAllKinds(lib: Library, ms: ModuleSet, files: seq<string>)
    ensures forall e :: e in ReadAll(lib, ms, files).1 ==> e.ReadFile? || e.ErrorLine?
    decreases |files|
  {
    if files != [] {
      var init, last := files[..|files| - 1], files[|files| - 1];
      ReadAllKinds(lib, ms, init);
      var events := ReadAll(lib, ms, init).1;
      var more := ReadStep(lib, ReadAll(lib, ms, init).0, last).1;
      assert ReadAll(lib, ms, files).1 == events + more;
      ReadStepNames(lib, ReadAll(lib, ms, init).0, last);
    }
  }

  lemma {:induction false} ReadAllCalls(lib: Library, ms: ModuleSet, files: seq<string>)
    ensures ReadAll(lib, ms, files).0.path == ms.path
    ensures |ReadAll(lib, ms, files).0.calls| == |ms.calls| + |files|
    ensures forall i :: 0 <= i < |files| ==> ReadAll(lib, ms, files).0.calls[|ms.calls| + i] == ReadCall(files[i])
    ensures ReadAll(lib, ms, files).0.calls[..|ms.calls|] == ms.calls
    decreases |files|
  {
    if files != [] {
      var init, last := files[..|files| - 1], files[|files| - 1];
      ReadAllCalls(lib, ms, init);
      var before := ReadAll(lib, ms, init).0;
      var after := before.After(ReadCall(last));
      assert ReadAll(lib, ms, files).0 == after;
      assert after.calls == before.calls + [ReadCall(last)];
      forall i | 0 <= i < |files| ensures after.calls[|ms.calls| + i] == ReadCall(files[i]) {
        if i < |init| {
          assert files[i] == init[i];
        }
      }
    }
  }

  /** One read call per file, in the order of `files`. */
  function ReadsOf(files: seq<string>): seq<Call>
  {
    seq(|files|, k requires 0 <= k < |files| => ReadCall(files[k]))
  }

  /** The model set when the file loop started on `ms` comes to `files[i]`: one read of each earlier file made on it. */
  function Before(ms: ModuleSet, files: seq<string>, i: nat): ModuleSet
    requires i <= |files|
  {
    ModuleSet(ms.path, ms.calls + ReadsOf(files[..i]))
  }

  /** What turn `i` of the file loop writes: the read, then its error if it failed, and nothing more if it did not. */
  function ReadBlock(lib: Library, ms: ModuleSet, files: seq<string>, i: nat): seq<Event>
    requires i < |files|
  {
    var err := lib.read(Before(ms, files, i), files[i]);
    [ReadFile(files[i])] + if err.Some? then [ErrorLine(err.value)] else []
  }

  function BlocksOf(lib: Library, ms: ModuleSet, files: seq<string>): seq<seq<Event>>
  {
    seq(|files|, i requires 0 <= i < |files| => ReadBlock(lib, ms, files, i))
  }

  /** The blocks of `blocks`, one after the other. */
  function Concat(blocks: seq<seq<Event>>): seq<Event>
  {
    if blocks == [] then [] else Concat(blocks[..|blocks| - 1]) + blocks[|blocks| - 1]
  }

  /**
   * The file loop (yang.go:147-152) in closed form: its events are, file by
   * file, the read of `files[i]` followed by exactly the error that read
   * returned on the model set holding the earlier reads, or by nothing when
   * it succeeded; and the model set it leaves holds one read per file.
   */
  lemma {:induction false} ReadAllBlocks(lib: Library, ms: ModuleSet, files: seq<string>)
    ensures ReadAll(lib, ms, files).1 == Concat(BlocksOf(lib, ms, files))
    ensures ReadAll(lib, ms, files).0 == Before(ms, files, |files|)
    decreases |files|
  {
    if files == [] {
      assert ReadsOf(files[..0]) == [];
    } else {
      var init, last := files[..|files| - 1], files[|files| - 1];
      ReadAllBlocks(lib, ms, init);
      var n := |init|;
      BeforeOfPrefix(ms, files, init, n);
      var blocks := BlocksOf(lib, ms, files);
      assert blocks[..n] == BlocksOf(lib, ms, init) by {
        forall i | 0 <= i < n ensures blocks[i] == ReadBlock(lib, ms, init, i) {
          BeforeOfPrefix(ms, files, init, i);
        }
      }
      assert blocks[n] == ReadStep(lib, Before(ms, files, n), last).1;
      assert ReadsOf(files[..n + 1]) == ReadsOf(files[..n]) + [ReadCall(last)];
      assert files[..n + 1] == files;
    }
  }

  /** A prefix of `files` leads the loop through the same model sets. */
  lemma BeforeOfPrefix(ms: ModuleSet, files: seq<string>, init: seq<string>, i: nat)
    requires i <= |init| <= |files| && init == files[..|init|]
    ensures Before(ms, init, i) == Before(ms, files, i)
  {
    assert init[..i] == files[..i];
  }

  /** Processing and rendering (yang.go:155-174): the formatter is called once, last, exactly when processing succeeds. */
  lemma FinishRendersOnSuccess(f: Formatter, lib: Library, ms: ModuleSet)
    ensures Finish(f, lib, ms).status == 0 <==> lib.process(ms) == []
    ensures Finish(f, lib, ms).status == 0 || Finish(f, lib, ms).status == 1
    ensures forall e :: e in Finish(f, lib, ms).events ==> e.Process? || e.ErrorLine? || e.Render?
    ensures RenderCount(Finish(f, lib, ms).events) == if lib.process(ms) == [] then 1 else 0
    ensures var r := Finish(f, lib, ms);
      r.status == 0 ==> r.events[|r.events| - 1] == Render(f, TopLevel(lib.modules(ms.After(ProcessCall)), lib.toEntry))
  {
    var errs := lib.process(ms);
    ErrorLinesAreErrors(errs);
    if errs != [] {
      NoRenders([Process] + ErrorLines(errs));
    } else {
      var r := Finish(f, lib, ms);
      assert r.events == [Process] + [r.events[1]];
      RenderCountAppend([Process], [r.events[1]]);
    }
  }

  /** Past the checks, the run is the trace prefix followed by the selected input mode. */
  lemma RunIsLoad(reg: map<string, Formatter>, opts: Options, env: Env, lib: Library)
    requires Dispatched(reg, opts, env)
    ensures RunSpec(reg, opts, env, lib) ==
      Outcome(TracePrefix(opts) + Load(reg[FormatOf(opts)], opts, env, lib).events, Load(reg[FormatOf(opts)], opts, env, lib).status)
  {
  }

  /** A trace file that cannot be created (yang.go:95-100) is reported and ends the run with status 1 before anything else. */
  lemma TraceFailureStops(reg: map<string, Formatter>, opts: Options, env: Env, lib: Library)
    requires TraceFails(opts, env)
    ensures RunSpec(reg, opts, env, lib) == Outcome([ErrorLine(env.traceCreate.value)], 1)
  {
  }

  /** Reading input is never the first thing: none happens unless both checks pass (yang.go:95-120). */
  lemma InputOnlyAfterChecks(reg: map<string, Formatter>, opts: Options, env: Env, lib: Library)
    requires Keyed(reg)
    ensures forall e :: e in RunSpec(reg, opts, env, lib).events && (IsInput(e) || IsOutput(e)) ==> Dispatched(reg, opts, env)
  {
    if !TraceFails(opts, env) && opts.help {
      FormatListIsHelp(reg);
      assert RunSpec(reg, opts, env, lib).events == TracePrefix(opts) + ([Usage] + FormatList(reg));
    }
  }

  /**
   * `--help` (yang.go:106-114): after the trace has started, the usage and
   * every registered format are listed and the run stops with status 0,
   * before the format is checked and before any input is read.
   */
  lemma HelpStopsWithZero(reg: map<string, Formatter>, opts: Options, env: Env, lib: Library)
    requires Keyed(reg)
    requires !TraceFails(opts, env) && opts.help
    ensures var r := RunSpec(reg, opts, env, lib);
      && r.status == 0
      && r.events == TracePrefix(opts) + [Usage] + FormatList(reg)
      && HelpNames(r.events) == SortedSet(reg.Keys)
      && forall e :: e in r.events ==> !IsInput(e) && !IsOutput(e) && !e.InvalidFormat? && !e.ErrorLine?
  {
    assert AfterTrace(reg, opts, env, lib) == Outcome([Usage] + FormatList(reg), 0);
    AppendAssociative(TracePrefix(opts), [Usage], FormatList(reg));
    HelpTextOnly(reg, opts);
  }

  /** The help output holds the usage and the format lines and nothing else. */
  lemma HelpTextOnly(reg: map<string, Formatter>, opts: Options)
    requires Keyed(reg)
    ensures var events := TracePrefix(opts) + [Usage] + FormatList(reg);
      && HelpNames(events) == SortedSet(reg.Keys)
      && forall e :: e in events ==> !IsInput(e) && !IsOutput(e) && !e.InvalidFormat? && !e.ErrorLine?
  {
    HelpTextNames(reg, opts);
    HelpTextKinds(reg, opts);
  }

  lemma HelpTextNames(reg: map<string, Formatter>, opts: Options)
    requires Keyed(reg)
    ensures HelpNames(TracePrefix(opts) + [Usage] + FormatList(reg)) == SortedSet(reg.Keys)
  {
    var list := FormatList(reg);
    FormatListIsHelp(reg);
    HelpNamesAppend(TracePrefix(opts) + [Usage], list);
    HelpNamesAppend(TracePrefix(opts), [Usage]);
    assert HelpNames([Usage]) == [];
    assert HelpNames(TracePrefix(opts)) == [];
  }

  lemma HelpTextKinds(reg: map<string, Formatter>, opts: Options)
    requires Keyed(reg)
    ensures forall e :: e in TracePrefix(opts) + [Usage] + FormatList(reg) ==> !IsInput(e) && !IsOutput(e) && !e.InvalidFormat? && !e.ErrorLine?
  {
    var pre, list := TracePrefix(opts) + [Usage], FormatList(reg);
    FormatListIsHelp(reg);
    assert forall e :: e in pre ==> e.TraceStarted? || e.Usage?;
    forall e | e in pre + list ensures e.TraceStarted? || e.Usage? || e.FormatHelp? {
      assert e in pre || e in list;
    }
  }

  /**
   * An unregistered format (yang.go:116-120) is reported with the sorted
   * list of choices and stops the run with status 1 before any input is read.
   */
  lemma InvalidFormatStopsWithOne(reg: map<string, Formatter>, opts: Options, env: Env, lib: Library)
    requires !TraceFails(opts, env) && !opts.help && FormatOf(opts) !in reg
    ensures var r := RunSpec(reg, opts, env, lib);
      && r.status == 1
      && r.events == TracePrefix(opts) + [InvalidFormat(FormatOf(opts), SortedSet(reg.Keys))]
      && StrictlySorted(r.events[|r.events| - 1].choices) && Elems(r.events[|r.events| - 1].choices) == reg.Keys
      && forall e :: e in r.events ==> !IsInput(e) && !IsOutput(e)
  {
    SortedSetIsSorted(reg.Keys);
  }

  /** A registered format always passes the check: the run never reports it invalid. */
  lemma RegisteredFormatPasses(reg: map<string, Formatter>, opts: Options, env: Env, lib: Library)
    requires !opts.help && FormatOf(opts) in reg
    ensures forall e :: e in RunSpec(reg, opts, env, lib).events ==> !e.InvalidFormat? && !e.Usage? && !e.FormatHelp?
  {
    if !TraceFails(opts, env) {
      var f := reg[FormatOf(opts)];
      LoadEventKinds(f, opts, env, lib);
    }
  }

  /** The kinds of event the input modes produce. */
  lemma LoadEventKinds(f: Formatter, opts: Options, env: Env, lib: Library)
    ensures forall e :: e in Load(f, opts, env, lib).events ==>
      IsInput(e) || IsOutput(e) || e.ErrorLine? || e.Process?
  {
    var empty := NewModules(opts.path);
    match ModeOf(opts.args)
    case NamedModule(name, files) =>
      ErrorLinesAreErrors(lib.getModule(opts.path, name, files).1);
    case StdinMode =>
      if env.stdin.Success? {
        FinishRendersOnSuccess(f, lib, empty.After(ParseCall(env.stdin.value, STDIN_SOURCE)));
      }
    case FileList(_) =>
      ReadAllReadsEveryFile(lib, empty, opts.args);
      FinishRendersOnSuccess(f, lib, ReadAll(lib, empty, opts.args).0);
  }

  /**
   * Named-module mode (yang.go:124-129) is taken exactly when the first
   * argument lacks the `.yang` suffix.  `GetModule` is called with the first
   * argument and the rest; its errors stop the run with status 1, and
   * otherwise the tree goes to `Write`.  No file is read and no formatter is
   * called.
   */
  lemma NamedModuleOutcome(reg: map<string, Formatter>, opts: Options, env: Env, lib: Library)
    requires Dispatched(reg, opts, env)
    requires |opts.args| > 0 && !HasSuffix(opts.args[0], YANG_SUFFIX)
    ensures ModeOf(opts.args) == NamedModule(opts.args[0], opts.args[1..])
    ensures var r := RunSpec(reg, opts, env, lib);
      var (tree, errs) := lib.getModule(opts.path, opts.args[0], opts.args[1..]);
      && r.events == TracePrefix(opts) + [GetModule(opts.args[0], opts.args[1..])] + (if errs == [] then [WriteTree(tree)] else ErrorLines(errs))
      && r.status == (if errs == [] then 0 else 1)
      && RenderCount(r.events) == 0
      && ReadNames(r.events) == []
      && forall e :: e in r.events ==> !e.ReadStdin? && !e.Process?
  {
    RunIsLoad(reg, opts, env, lib);
    TracedShowModule(opts, lib);
  }

  lemma TracedShowModule(opts: Options, lib: Library)
    requires |opts.args| > 0
    ensures var events := TracePrefix(opts) + ShowModule(opts.path, opts.args[0], opts.args[1..], lib).events;
      && RenderCount(events) == 0
      && ReadNames(events) == []
      && forall e :: e in events ==> !e.ReadStdin? && !e.Process?
  {
    var s := ShowModule(opts.path, opts.args[0], opts.args[1..], lib);
    ShowModuleEvents(opts.path, opts.args[0], opts.args[1..], lib);
    NoRenders(TracePrefix(opts));
    NoReads(TracePrefix(opts));
    RenderCountAppend(TracePrefix(opts), s.events);
    ReadNamesAppend(TracePrefix(opts), s.events);
  }

  /** Named-module mode reads no file and standard input, processes nothing and calls no formatter. */
  lemma ShowModuleEvents(path: seq<string>, name: string, files: seq<string>, lib: Library)
    ensures var s := ShowModule(path, name, files, lib);
      var (tree, errs) := lib.getModule(path, name, files);
      && s.events == [GetModule(name, files)] + (if errs == [] then [WriteTree(tree)] else ErrorLines(errs))
      && RenderCount(s.events) == 0
      && ReadNames(s.events) == []
      && forall e :: e in s.events ==> !e.ReadStdin? && !e.Process?
  {
    var s := ShowModule(path, name, files, lib);
    ErrorLinesAreErrors(lib.getModule(path, name, files).1);
    NoRenders(s.events);
    NoReads(s.events);
  }

  /** The mode the arguments select: named module, standard input, or a list of `.yang` files (yang.go:124, 136). */
  lemma ModeOfCases(args: seq<string>)
    ensures ModeOf(args).NamedModule? <==> |args| > 0 && !HasSuffix(args[0], YANG_SUFFIX)
    ensures ModeOf(args).StdinMode? <==> args == []
    ensures ModeOf(args).FileList? <==> |args| > 0 && HasSuffix(args[0], YANG_SUFFIX)
    ensures ModeOf(args).FileList? ==> ModeOf(args).files == args
    ensures ModeOf(args).NamedModule? ==> ModeOf(args).name == args[0] && ModeOf(args).files == args[1..]
  {
  }

  /**
   * Standard-input mode (yang.go:136-145): with no arguments, standard input
   * is parsed as the one source `<STDIN>`; a read or parse failure is
   * written and stops the run with status 1 before processing.
   */
  lemma StdinFailureStops(reg: map<string, Formatter>, opts: Options, env: Env, lib: Library)
    requires Dispatched(reg, opts, env) && opts.args == []
    requires env.stdin.Failure? || lib.parse(NewModules(opts.path), env.stdin.value, STDIN_SOURCE).Some?
    ensures var r := RunSpec(reg, opts, env, lib);
      var err := if env.stdin.Failure? then env.stdin.error else lib.parse(NewModules(opts.path), env.stdin.value, STDIN_SOURCE).value;
      && r.status == 1
      && r.events == TracePrefix(opts) + [ReadStdin, ErrorLine(err)]
      && RenderCount(r.events) == 0
      && forall e :: e in r.events ==> !e.Process? && !IsOutput(e)
  {
    var r := RunSpec(reg, opts, env, lib);
    RunIsLoad(reg, opts, env, lib);
    NoRenders(r.events);
  }

  /** When standard input parses, the model set processed is the empty one after that single parse. */
  lemma StdinParsedOnce(opts: Options, env: Env, lib: Library)
    requires opts.args == [] && env.stdin.Success?
    ensures Loaded(opts, env, lib) == ModuleSet(opts.path, [ParseCall(env.stdin.value, STDIN_SOURCE)])
  {
  }

  /**
   * File-list mode (yang.go:147-152): every file is read, in the order
   * listed, whether or not reading an earlier one failed; no module is looked
   * up by name and standard input is not read.
   */
  lemma FileListReadsEveryFile(reg: map<string, Formatter>, opts: Options, env: Env, lib: Library)
    requires Dispatched(reg, opts, env)
    requires |opts.args| > 0 && HasSuffix(opts.args[0], YANG_SUFFIX)
    ensures ReadNames(RunSpec(reg, opts, env, lib).events) == opts.args
    ensures forall e :: e in RunSpec(reg, opts, env, lib).events ==> !e.GetModule? && !e.ReadStdin? && !e.WriteTree?
  {
    RunIsFinish(reg, opts, env, lib);
    FileListEvents(reg[FormatOf(opts)], opts, env, lib);
  }

  lemma FileListEvents(f: Formatter, opts: Options, env: Env, lib: Library)
    requires |opts.args| > 0 && HasSuffix(opts.args[0], YANG_SUFFIX)
    ensures var events := TracePrefix(opts) + Inputs(opts, lib) + Finish(f, lib, Loaded(opts, env, lib)).events;
      && ReadNames(events) == opts.args
      && forall e :: e in events ==> !e.GetModule? && !e.ReadStdin? && !e.WriteTree?
  {
    var inputs := Inputs(opts, lib);
    var fin := Finish(f, lib, Loaded(opts, env, lib)).events;
    ReadAllReadsEveryFile(lib, NewModules(opts.path), opts.args);
    FinishRendersOnSuccess(f, lib, Loaded(opts, env, lib));
    ReadNamesOfRun(TracePrefix(opts), inputs, fin);
    forall e | e in TracePrefix(opts) + inputs + fin ensures !e.GetModule? && !e.ReadStdin? && !e.WriteTree? {
      assert e in TracePrefix(opts) || e in inputs || e in fin;
    }
  }

  lemma ReadNamesOfRun(prefix: seq<Event>, inputs: seq<Event>, fin: seq<Event>)
    requires forall e :: e in prefix ==> e.TraceStarted?
    requires forall e :: e in fin ==> e.Process? || e.ErrorLine? || e.Render?
    ensures ReadNames(prefix + inputs + fin) == ReadNames(inputs)
  {
    NoReads(fin);
    NoReads(prefix);
    ReadNamesAppend(prefix + inputs, fin);
    ReadNamesAppend(prefix, inputs);
  }

  /** In file-list mode the model set processed is the empty one after one read per listed file, in order. */
  lemma FileListLoadsEveryFile(opts: Options, env: Env, lib: Library)
    requires |opts.args| > 0 && HasSuffix(opts.args[0], YANG_SUFFIX)
    ensures Loaded(opts, env, lib).path == opts.path
    ensures Loaded(opts, env, lib).calls == seq(|opts.args|, i requires 0 <= i < |opts.args| => ReadCall(opts.args[i]))
  {
    ReadAllReadsEveryFile(lib, NewModules(opts.path), opts.args);
  }

  /** The input events of a run outside named-module mode: reading standard input, or the file loop. */
  function Inputs(opts: Options, lib: Library): seq<Event>
  {
    if opts.args == [] then [ReadStdin] else ReadAll(lib, NewModules(opts.path), opts.args).1
  }

  /** Outside named-module mode, loading does not stop the run: standard input, if used, is read and parses. */
  predicate LoadsCleanly(opts: Options, env: Env, lib: Library)
  {
    && !ModeOf(opts.args).NamedModule?
    && (opts.args == [] ==> env.stdin.Success? && lib.parse(NewModules(opts.path), env.stdin.value, STDIN_SOURCE).None?)
  }

  /**
   * A run that loads cleanly is the trace prefix, the input events, and then
   * processing and rendering of the loaded model set; nothing before
   * processing writes a tree or calls a formatter.
   */
  lemma RunIsFinish(reg: map<string, Formatter>, opts: Options, env: Env, lib: Library)
    requires Dispatched(reg, opts, env) && LoadsCleanly(opts, env, lib)
    ensures var fin := Finish(reg[FormatOf(opts)], lib, Loaded(opts, env, lib));
      RunSpec(reg, opts, env, lib) == Outcome(TracePrefix(opts) + Inputs(opts, lib) + fin.events, fin.status)
    ensures forall e :: e in TracePrefix(opts) + Inputs(opts, lib) ==> !IsOutput(e) && !e.Process?
  {
    var f := reg[FormatOf(opts)];
    var fin := Finish(f, lib, Loaded(opts, env, lib));
    RunIsLoad(reg, opts, env, lib);
    assert Load(f, opts, env, lib) == Outcome(Inputs(opts, lib) + fin.events, fin.status) by {
      if opts.args != [] {
        assert Load(f, opts, env, lib) == FromFiles(f, opts, lib);
      }
    }
    AppendAssociative(TracePrefix(opts), Inputs(opts, lib), fin.events);
    if opts.args != [] {
      ReadAllReadsEveryFile(lib, NewModules(opts.path), opts.args);
    }
  }

  /**
   * A non-empty batch of processing errors (yang.go:155) is written and
   * stops the run with status 1, so no formatter is called.
   */
  lemma ProcessErrorsStop(reg: map<string, Formatter>, opts: Options, env: Env, lib: Library)
    requires Dispatched(reg, opts, env) && LoadsCleanly(opts, env, lib)
    requires lib.process(Loaded(opts, env, lib)) != []
    ensures var r := RunSpec(reg, opts, env, lib);
      var errs := lib.process(Loaded(opts, env, lib));
      && r.status == 1
      && RenderCount(r.events) == 0
      && |errs| < |r.events|
      && r.events[|r.events| - |errs|..] == ErrorLines(errs)
      && forall e :: e in r.events ==> !IsOutput(e)
  {
    var f := reg[FormatOf(opts)];
    var ms := Loaded(opts, env, lib);
    var errs := lib.process(ms);
    var front := TracePrefix(opts) + Inputs(opts, lib);
    var fin := Finish(f, lib, ms).events;
    RunIsFinish(reg, opts, env, lib);
    FinishRendersOnSuccess(f, lib, ms);
    var events := front + fin;
    assert fin == [Process] + ErrorLines(errs);
    assert events[|events| - |errs|..] == fin[1..];
    RenderCountAppend(front, fin);
    NoRenders(front);
    assert forall e :: e in events ==> e in front || e in fin;
  }

  /**
   * A successful run outside named-module mode (yang.go:157-174) calls the
   * requested formatter exactly once, as its last act, with one tree per
   * distinct module name in ascending order, and writes no tree by itself.
   */
  lemma SuccessRendersOnce(reg: map<string, Formatter>, opts: Options, env: Env, lib: Library)
    requires Dispatched(reg, opts, env) && LoadsCleanly(opts, env, lib)
    requires lib.process(Loaded(opts, env, lib)) == []
    ensures var r := RunSpec(reg, opts, env, lib);
      && r.status == 0
      && r.events[|r.events| - 1] == Render(reg[FormatOf(opts)], TopLevel(lib.modules(Loaded(opts, env, lib).After(ProcessCall)), lib.toEntry))
      && RenderCount(r.events) == 1
      && forall e :: e in r.events ==> !e.WriteTree?
  {
    var f := reg[FormatOf(opts)];
    var ms := Loaded(opts, env, lib);
    var front := TracePrefix(opts) + Inputs(opts, lib);
    var fin := Finish(f, lib, ms).events;
    RunIsFinish(reg, opts, env, lib);
    FinishRendersOnSuccess(f, lib, ms);
    var events := front + fin;
    assert events[|events| - 1] == fin[|fin| - 1];
    RenderCountAppend(front, fin);
    NoRenders(front);
    assert forall e :: e in events ==> e in front || e in fin;
  }

  /** Outside named-module mode, the run exits with status 0 exactly when loading and processing succeed (yang.go:136-174). */
  lemma ExitZeroIffProcessed(reg: map<string, Formatter>, opts: Options, env: Env, lib: Library)
    requires Dispatched(reg, opts, env) && !ModeOf(opts.args).NamedModule?
    ensures RunSpec(reg, opts, env, lib).status == 0 <==> LoadsCleanly(opts, env, lib) && lib.process(Loaded(opts, env, lib)) == []
  {
    if !LoadsCleanly(opts, env, lib) {
      StdinFailureStops(reg, opts, env, lib);
    } else if lib.process(Loaded(opts, env, lib)) != [] {
      ProcessErrorsStop(reg, opts, env, lib);
    } else {
      SuccessRendersOnce(reg, opts, env, lib);
    }
  }

  /**
   * Every run exits with status 0 or 1, and a run that exits with 1 has
   * written no tree and called no formatter.
   */
  lemma ExitStatusAndOutput(reg: map<string, Formatter>, opts: Options, env: Env, lib: Library)
    requires Keyed(reg)
    ensures var r := RunSpec(reg, opts, env, lib);
      && (r.status == 0 || r.status == 1)
      && (r.status == 1 ==> forall e :: e in r.events ==> !IsOutput(e))
  {
    if TraceFails(opts, env) {
    } else if opts.help {
      HelpStopsWithZero(reg, opts, env, lib);
    } else if FormatOf(opts) !in reg {
      InvalidFormatStopsWithOne(reg, opts, env, lib);
    } else if ModeOf(opts.args).NamedModule? {
      NamedModuleOutcome(reg, opts, env, lib);
    } else if !LoadsCleanly(opts, env, lib) {
      StdinFailureStops(reg, opts, env, lib);
    } else if lib.process(Loaded(opts, env, lib)) != [] {
      ProcessErrorsStop(reg, opts, env, lib);
    } else {
      SuccessRendersOnce(reg, opts, env, lib);
    }
  }
}
