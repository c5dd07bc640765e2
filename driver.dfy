/**
 * The `main` package of the `yang` command (yang.go): the process-wide
 * format registry, `exitIfError`, `stop`, and `main` itself, as a class whose
 * fields are what the process has registered, what it has done so far and
 * whether it has exited.
 */
module Driver {
  import opened Wrappers
  import opened Strings
  import opened Sorting
  import opened Schema
  import opened Selection
  import opened Pipeline

  /** Whether the process is still running or has exited, and with which status. */
  datatype Status = Running | Exited(code: int)

  /** The formatters registered in order, the later of two with the same name replacing the earlier. */
  function RegistryOf(plugins: seq<Formatter>): map<string, Formatter>
  {
    if plugins == [] then map[]
    else RegistryOf(plugins[..|plugins| - 1])[plugins[|plugins| - 1].name := plugins[|plugins| - 1]]
  }

  /**
   * Registration keeps one formatter per name, filed under that name: the
   * last one registered with it.
   */
  lemma {:induction false} RegistryOfLastWins(plugins: seq<Formatter>)
    ensures Keyed(RegistryOf(plugins))
    ensures forall n :: n in RegistryOf(plugins) <==> exists i :: 0 <= i < |plugins| && plugins[i].name == n
    ensures forall i :: 0 <= i < |plugins| && (forall j :: i < j < |plugins| ==> plugins[j].name != plugins[i].name) ==>
      RegistryOf(plugins)[plugins[i].name] == plugins[i]
  {
    if plugins != [] {
      var init, last := plugins[..|plugins| - 1], plugins[|plugins| - 1];
      RegistryOfLastWins(init);
      assert plugins == init + [last];
      forall n ensures n in RegistryOf(plugins) <==> exists i :: 0 <= i < |plugins| && plugins[i].name == n {
        if n in RegistryOf(init) {
          var i :| 0 <= i < |init| && init[i].name == n;
          assert plugins[i] == init[i];
        }
        if exists i :: 0 <= i < |plugins| && plugins[i].name == n {
          var i :| 0 <= i < |plugins| && plugins[i].name == n;
          if i < |init| {
            assert init[i] == plugins[i];
          }
        }
      }
      forall i | 0 <= i < |plugins| && (forall j :: i < j < |plugins| ==> plugins[j].name != plugins[i].name)
        ensures RegistryOf(plugins)[plugins[i].name] == plugins[i]
      {
        if i < |init| {
          assert init[i] == plugins[i];
          assert forall j :: i < j < |init| ==> init[j] == plugins[j];
        }
      }
    }
  }

  class Yang {
    /** `formatters` (yang.go:59). */
    var formatters: map<string, Formatter>
    /** What the process has done so far. */
    var log: seq<Event>
    var status: Status

    ghost predicate Valid()
      reads this
    {
      Keyed(formatters)
    }

    /** The process before any format has registered: `formatters` is empty. */
    constructor ()
      ensures Valid() && formatters == map[] && log == [] && status == Running
    {
      formatters := map[];
      log := [];
      status := Running;
    }

    /** `register` (yang.go:61-63): files `f` under its name, replacing any formatter filed there. */
    method Register(f: Formatter)
      requires Valid()
      modifies this`formatters
      ensures Valid()
      ensures formatters == old(formatters)[f.name := f]
    {
      formatters := formatters[f.name := f];
    }

    /** `stop(c)` (yang.go:76): the process exits with status `c`. */
    method Stop(c: int)
      requires status == Running
      modifies this`status
      ensures status == Exited(c)
    {
      status := Exited(c);
    }

    /**
     * `exitIfError` (yang.go:67-74): with no errors, nothing happens; otherwise
     * every error is written, in order, and the process exits with status 1.
     */
    method ExitIfError(errs: seq<Error>)
      requires status == Running
      modifies this`log, this`status
      ensures log == old(log) + ErrorLines(errs)
      ensures status == if errs == [] then Running else Exited(1)
    {
      if |errs| > 0 {
        for i := 0 to |errs|
          invariant log == old(log) + ErrorLines(errs[..i])
          invariant status == Running
        {
          ErrorLinesSnoc(errs[..i], errs[i]);
          assert errs[..i + 1] == errs[..i] + [errs[i]];
          log := log + [ErrorLine(errs[i])];
        }
        assert errs[..|errs|] == errs;
        Stop(1);
      }
    }

    /**
     * yang.go:80-84: the registered format names, collected in map order and
     * sorted, so each name appears once and in ascending order.
     */
    method FormatNames() returns (formats: seq<string>)
      ensures StrictlySorted(formats) && Elems(formats) == formatters.Keys
      ensures |formats| == |formatters|
      ensures formats == SortedSet(formatters.Keys)
    {
      var listed: seq<string> := [];
      var rest := formatters.Keys;
      while rest != {}
        invariant rest <= formatters.Keys
        invariant Elems(listed) == formatters.Keys - rest
        invariant Distinct(listed)
        decreases |rest|
      {
        var k :| k in rest;
        assert Elems(listed + [k]) == Elems(listed) + {k};
        listed := listed + [k];
        rest := rest - {k};
      }
      formats := SortDistinct(listed);
      SortedSetIsSorted(formatters.Keys);
    }

    /** yang.go:109-112: one line of name and help text per format, in the order of `formats`. */
    method PrintFormats(formats: seq<string>)
      requires forall fn :: fn in formats ==> fn in formatters
      modifies this`log
      ensures log == old(log) + HelpLines(formatters, formats)
    {
      for i := 0 to |formats|
        invariant log == old(log) + HelpLines(formatters, formats[..i])
      {
        var f := formatters[formats[i]];
        assert formats[..i + 1] == formats[..i] + [formats[i]];
        HelpLinesSnoc(formatters, formats[..i], formats[i]);
        log := log + [FormatHelp(f.name, f.help)];
      }
      assert formats[..|formats|] == formats;
    }

    /**
     * yang.go:147-152: reads every file in order; a file that fails to read
     * is reported and skipped.
     */
    method ReadFiles(lib: Library, ms: ModuleSet, files: seq<string>) returns (loaded: ModuleSet)
      modifies this`log
      ensures loaded == ReadAll(lib, ms, files).0
      ensures log == old(log) + ReadAll(lib, ms, files).1
    {
      loaded := ms;
      for i := 0 to |files|
        invariant loaded == ReadAll(lib, ms, files[..i]).0
        invariant log == old(log) + ReadAll(lib, ms, files[..i]).1
      {
        assert files[..i + 1][..i] == files[..i];
        log := log + [ReadFile(files[i])];
        var err := lib.read(loaded, files[i]);
        loaded := loaded.After(ReadCall(files[i]));
        if err.Some? {
          log := log + [ErrorLine(err.value)];
          continue;
        }
      }
      assert files[..|files|] == files;
    }

    /** `main` (yang.go:78-175), with the command line already parsed into `opts`. */
    method Run(opts: Options, env: Env, lib: Library)
      requires Valid() && status == Running
      modifies this`log, this`status
      ensures status == Exited(RunSpec(formatters, opts, env, lib).status)
      ensures log == old(log) + RunSpec(formatters, opts, env, lib).events
    {
      if opts.trace != "" {
        if env.traceCreate.Some? {
          log := log + [ErrorLine(env.traceCreate.value)];
          status := Exited(1);
          return;
        }
        log := log + [TraceStarted(opts.trace)];
      }
      ghost var started := log;
      CheckAndLoad(opts, env, lib);
      assert log == started + AfterTrace(formatters, opts, env, lib).events;
    }

    /** yang.go:106-174: the help and format checks, then the selected input mode. */
    method CheckAndLoad(opts: Options, env: Env, lib: Library)
      requires status == Running
      modifies this`log, this`status
      ensures status == Exited(AfterTrace(formatters, opts, env, lib).status)
      ensures log == old(log) + AfterTrace(formatters, opts, env, lib).events
    {
      var passed := Check(opts);
      if passed {
        LoadAndRender(formatters[FormatOf(opts)], opts, env, lib);
      }
    }

    /**
     * yang.go:106-120: `--help` prints the usage and the format list and
     * exits with 0; an unregistered format is reported and exits with 1;
     * otherwise nothing happens and `passed` is true.
     */
    method Check(opts: Options) returns (passed: bool)
      requires status == Running
      modifies this`log, this`status
      ensures passed <==> Checks(formatters, opts).None?
      ensures passed ==> FormatOf(opts) in formatters && status == Running && log == old(log)
      ensures !passed ==> status == Exited(Checks(formatters, opts).value.status) &&
                          log == old(log) + Checks(formatters, opts).value.events
    {
      var formats := FormatNames();

      if opts.help {
        ShowHelp(formats);
        return false;
      }

      if FormatOf(opts) !in formatters {
        log := log + [InvalidFormat(FormatOf(opts), formats)];
        Stop(1);
        return false;
      }
      return true;
    }

    /** yang.go:106-113: the usage text, then the format list, then exit with status 0. */
    method ShowHelp(formats: seq<string>)
      requires forall fn :: fn in formats ==> fn in formatters
      requires status == Running
      modifies this`log, this`status
      ensures status == Exited(0)
      ensures log == old(log) + ([Usage] + HelpLines(formatters, formats))
    {
      log := log + [Usage];
      PrintFormats(formats);
      AppendAssociative(old(log), [Usage], HelpLines(formatters, formats));
      Stop(0);
    }

    /** yang.go:122-174: the input mode the positional arguments select, with `f` the chosen formatter. */
    method LoadAndRender(f: Formatter, opts: Options, env: Env, lib: Library)
      requires status == Running
      modifies this`log, this`status
      ensures status == Exited(Load(f, opts, env, lib).status)
      ensures log == old(log) + Load(f, opts, env, lib).events
    {
      if |opts.args| > 0 && !HasSuffix(opts.args[0], YANG_SUFFIX) {
        WriteModule(opts.path, opts.args[0], opts.args[1..], lib);
      } else if |opts.args| == 0 {
        LoadStdin(f, opts, env, lib);
      } else {
        LoadFiles(f, opts, lib);
      }
    }

    /** yang.go:124-129: named-module mode. */
    method WriteModule(path: seq<string>, name: string, files: seq<string>, lib: Library)
      requires status == Running
      modifies this`log, this`status
      ensures status == Exited(ShowModule(path, name, files, lib).status)
      ensures log == old(log) + ShowModule(path, name, files, lib).events
    {
      log := log + [GetModule(name, files)];
      var found := lib.getModule(path, name, files);
      ExitIfError(found.1);
      if found.1 != [] {
        AppendAssociative(old(log), [GetModule(name, files)], ErrorLines(found.1));
        return;
      }
      log := log + [WriteTree(found.0)];
      status := Exited(0);
    }

    /** yang.go:136-145, then 155-174: standard-input mode. */
    method LoadStdin(f: Formatter, opts: Options, env: Env, lib: Library)
      requires status == Running
      modifies this`log, this`status
      ensures status == Exited(FromStdin(f, opts, env, lib).status)
      ensures log == old(log) + FromStdin(f, opts, env, lib).events
    {
      var ms := NewModules(opts.path);
      log := log + [ReadStdin];
      if env.stdin.Failure? {
        log := log + [ErrorLine(env.stdin.error)];
        Stop(1);
        return;
      }
      var err := lib.parse(ms, env.stdin.value, STDIN_SOURCE);
      ms := ms.After(ParseCall(env.stdin.value, STDIN_SOURCE));
      if err.Some? {
        log := log + [ErrorLine(err.value)];
        Stop(1);
        return;
      }
      ProcessAndRender(f, lib, ms);
      AppendAssociative(old(log), [ReadStdin], Finish(f, lib, ms).events);
    }

    /** yang.go:147-152, then 155-174: file-list mode. */
    method LoadFiles(f: Formatter, opts: Options, lib: Library)
      requires status == Running
      modifies this`log, this`status
      ensures status == Exited(FromFiles(f, opts, lib).status)
      ensures log == old(log) + FromFiles(f, opts, lib).events
    {
      var ms := ReadFiles(lib, NewModules(opts.path), opts.args);
      ProcessAndRender(f, lib, ms);
      AppendAssociative(old(log), ReadAll(lib, NewModules(opts.path), opts.args).1, Finish(f, lib, ms).events);
    }

    /**
     * yang.go:155-174: processes the loaded modules, stopping on errors, and
     * otherwise calls the formatter once with the selected trees.
     */
    method ProcessAndRender(f: Formatter, lib: Library, ms: ModuleSet)
      requires status == Running
      modifies this`log, this`status
      ensures status == Exited(Finish(f, lib, ms).status)
      ensures log == old(log) + Finish(f, lib, ms).events
    {
      log := log + [Process];
      var errs := lib.process(ms);
      ExitIfError(errs);
      if errs != [] {
        AppendAssociative(old(log), [Process], ErrorLines(errs));
        return;
      }
      Render(f, lib.modules(ms.After(ProcessCall)), lib.toEntry);
      AppendAssociative(old(log), [Process], [Pipeline.Render(f, TopLevel(lib.modules(ms.After(ProcessCall)), lib.toEntry))]);
    }

    /** yang.go:157-174: selects the trees to display and calls the formatter with them. */
    method Render(f: Formatter, modules: seq<Module>, toEntry: Module -> Entry)
      requires status == Running
      modifies this`log, this`status
      ensures status == Exited(0)
      ensures log == old(log) + [Pipeline.Render(f, TopLevel(modules, toEntry))]
    {
      var names, mods, entries := SelectTopLevel(modules, toEntry);
      log := log + [Pipeline.Render(f, entries)];
      status := Exited(0);
    }
  }

  /**
   * A whole process: the format plugins register in order (their `init`
   * functions run before `main`), then `main` runs.  Returns the exit
   * status and everything the process did.
   */
  method Execute(plugins: seq<Formatter>, opts: Options, env: Env, lib: Library)
    returns (code: int, events: seq<Event>)
    ensures Outcome(events, code) == RunSpec(RegistryOf(plugins), opts, env, lib)
  {
    var yang := new Yang();
    for i := 0 to |plugins|
      invariant yang.Valid() && yang.formatters == RegistryOf(plugins[..i])
      invariant yang.log == [] && yang.status == Running
    {
      assert plugins[..i + 1][..i] == plugins[..i];
      yang.Register(plugins[i]);
    }
    assert plugins[..|plugins|] == plugins;
    yang.Run(opts, env, lib);
    code := yang.status.code;
    events := yang.log;
  }
}
