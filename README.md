# The `yang` command driver, modelled and verified in Dafny

`yang` reads YANG schema modules and prints them in a format the user
chooses. Its `main` package (`yang.go`) handles a number of things:

- It keeps a process-wide registry of output formats. Format plugins fill it through
  `register`.
- It builds the sorted list of format names.
- It checks `--help` and `--format` before touching input.
- It picks one of three input modes from the positional arguments:
  - a module looked up by name;
  - standard input;
  - a list of `.yang` files.
- It stops through `exitIfError`/`stop` when the schema library reports errors.
- It chooses which parsed modules to display: one per distinct name, the first
  one met, in ascending name order. It converts each to a tree and hands the
  trees to the chosen formatter.

This project models that driver and proves what it promises. The structure
follows the files:

| file | module | contents |
|---|---|---|
| `wrappers.dfy` | `Wrappers` | `Option` and `Result` |
| `strings.dfy` | `Strings` | the byte order `sort.Strings` uses (lexicographic on code points), `HasSuffix`, and sortedness and distinctness of sequences |
| `sorting.dfy` | `Sorting` | `sort.Strings` as an in-place insertion sort on an array, and `SortedSet`, the reference ascending listing of a finite set |
| `schema.dfy` | `Schema` | the schema library as uninterpreted functions: `GetModule`, `Parse`, `Read`, `Process`, the range order of `ms.Modules`, `ToEntry` |
| `selection.dfy` | `Selection` | the first-of-each-name, sort, `ToEntry` selection (yang.go:159-172) |
| `pipeline.dfy` | `Pipeline` | `RunSpec`, the whole run as a function: the events it produces in order and its exit status |
| `driver.dfy` | `Driver` | class `Yang`, which holds the registry (`formatters`), the run's log and its status, with one method per step of `main` |
| `properties.dfy` | `Properties` | what every run promises, proved about `RunSpec` |

How a run is modelled:

- A run is observed as the sequence of `Pipeline.Event`s it produces, which is
  what it writes and which library calls it makes, plus its exit status.
- `stop(c)` sets the status to `Exited(c)`, and the method stops. Returning
  from `main` is `Exited(0)`.
- Each driver method is proved to produce exactly the events and status of
  one spec function:
  - `Run` produces `RunSpec`.
  - `CheckAndLoad` produces `AfterTrace`.
  - `Check` produces `Checks`.
  - `LoadAndRender` produces `Load`.
  - The per-mode methods produce `ShowModule`, `FromStdin` and `FromFiles`.
  - `ProcessAndRender` produces `Finish`.
- The properties are then proved about those functions.
- The schema library's model set is the search path plus the history of calls
  made on it (`Schema.ModuleSet`). Whatever the library answers is an
  arbitrary function of that history, so every result holds whatever the
  library does.
- Go leaves map iteration order unspecified. For `formatters`, the model
  picks keys with `:|`. For `ms.Modules`, the order is the arbitrary sequence
  `lib.modules(ms)`. Sortedness and distinctness of the output are proved for
  every such order.

## Model

| member | source | states |
|---|---|---|
| Driver.Yang.Register | yang.go:61-63 | the registry afterwards is the old one with `f` filed under `f.name`, every other name unchanged, and every formatter still filed under its own name |
| Driver.RegistryOfLastWins | yang.go:61-63 | after a sequence of registrations, a name is registered iff some registered formatter has it, each formatter is filed under its own name, and a name maps to the last formatter registered with it |
| Driver.Yang.Stop | yang.go:76 | `stop(c)` ends the run with exit status `c` |
| Driver.Yang.ExitIfError | yang.go:65-74 | with no errors nothing is written and the run goes on; otherwise every error is written, in order, and the run exits with status 1 |
| Pipeline.ErrorLines | yang.go:69-71 | one error line per error, in the order given |
| Driver.Yang.FormatNames | yang.go:80-84 | the format list holds every registered name exactly once, in strictly ascending order, and is the ascending listing of the registry's keys |
| Sorting.SortStrings | yang.go:84 | the in-place sort leaves the array sorted and a permutation of its old contents |
| Sorting.SortDistinct | yang.go:84 | sorting distinct names gives a strictly ascending sequence of the same names, the one `SortedSet` defines |
| Sorting.SortedPermutationOfDistinct | yang.go:84 | any sorted permutation of a duplicate-free sequence equals the ascending listing of its elements |
| Sorting.SortedSetIsSorted | yang.go:84 | the reference listing `SortedSet(s)` is strictly ascending, lists exactly the elements of `s`, and has as many entries as `s` has elements |
| Sorting.SortedSetUnique | yang.go:84 | any strictly ascending listing of a set is `SortedSet` of it |
| Strings.LessTotal | yang.go:84 | the string order `sort.Strings` uses is total; with `LessIrreflexive` and `LessTransitive` it is a strict total order |
| Driver.Yang.Run | yang.go:78-175 | `main` (after flag parsing) produces exactly the events and exit status of `RunSpec` |
| Driver.Execute | yang.go:59-175 | registering the plugins in order and then running `main` yields `RunSpec` of the registry they build |
| Driver.Yang.CheckAndLoad | yang.go:106-174 | past the trace set-up: the checks, then the selected input mode, as `AfterTrace` |
| Driver.Yang.Check | yang.go:106-120 | the checks pass iff `--help` is off and the format is registered; passing changes nothing, and failing leaves the status and log `Checks` gives |
| Driver.Yang.ShowHelp | yang.go:106-113 | `--help` writes the usage, then one line per format in the order given, then exits with status 0 |
| Driver.Yang.PrintFormats | yang.go:109-112 | one line with the name and help text of each format, in the order of the list |
| Driver.Yang.LoadAndRender | yang.go:122-174 | the input mode the arguments select, as `Load` |
| Driver.Yang.WriteModule | yang.go:124-129 | named-module mode, as `ShowModule`: `GetModule`, then its errors and status 1, or the tree written and status 0 |
| Driver.Yang.LoadStdin | yang.go:134-145 | standard-input mode, as `FromStdin`: a read or parse failure is written and exits with 1, and otherwise processing follows |
| Driver.Yang.ReadFiles | yang.go:147-152 | reads every file, in order; a failed read is written and skipped; the model set and log afterwards are those of `ReadAll` |
| Driver.Yang.LoadFiles | yang.go:147-155 | file-list mode, as `FromFiles` |
| Driver.Yang.ProcessAndRender | yang.go:155-174 | processing errors are written and exit with 1; otherwise the formatter is called with the selected trees, as `Finish` |
| Driver.Yang.Render | yang.go:157-174 | the formatter is called once, with `TopLevel` of the processed modules, and the run ends with status 0 |
| Selection.SelectTopLevel | yang.go:159-172 | `names` is strictly ascending and is exactly the set of distinct module names; `mods[n]` is the first module named `n` in range order; `entries` has one entry per name, with `entries[i] == ToEntry(mods[names[i]])`; the result is `TopLevel` |
| Selection.FirstOfEachName | yang.go:159-167 | the map holds exactly the distinct names, each mapped to the first module of that name; the appended names are duplicate-free and are the map's keys |
| Selection.TreesFor | yang.go:169-172 | one tree per name, `entries[x] == ToEntry(mods[names[x]])` |
| Selection.FirstIndexIsFirst | yang.go:163-165 | the first-seen position holds the name, and no earlier position does |
| Selection.TopLevelLength | yang.go:169 | there are as many trees as distinct module names |
| Selection.TopLevelOrderIndependent | yang.go:162-172 | when no two different modules share a name, the trees do not depend on the map's range order |
| Selection.FirstSeenDependsOnOrder | yang.go:162-167 | with two different modules of one name, the kept one is the first in range order, so two orders can display different trees |
| Properties.TraceFailureStops | yang.go:95-100 | a trace file that cannot be created is reported, and the run exits with 1 and does nothing else |
| Properties.HelpStopsWithZero | yang.go:95-114 | with `--help`, once the trace has started, the run writes the usage and the sorted format list. It exits with 0 and reads no input, calls no formatter, and reports no invalid format and no error |
| Properties.FormatListNamesEveryFormat | yang.go:109-112 | the help list has only format lines, naming every registered format once, in strictly ascending order |
| Properties.InvalidFormatStopsWithOne | yang.go:116-120 | an unregistered format is reported with the strictly ascending list of all registered names, and the run exits with 1 before any input or output |
| Properties.RegisteredFormatPasses | yang.go:116-120 | with a registered format (and no `--help`), no invalid-format report, usage or format list is ever written |
| Properties.InputOnlyAfterChecks | yang.go:95-122 | any input read or output written implies the trace set-up succeeded, `--help` was off and the format is registered |
| Properties.ModeOfCases | yang.go:124-136 | named-module mode iff there are arguments and the first lacks `.yang`; standard input iff there are none; a file list otherwise |
| Properties.NamedModuleOutcome | yang.go:124-129 | named-module mode calls `GetModule(files[0], files[1:])`. On errors it writes them and exits with 1; otherwise it writes the tree and exits with 0. It reads no file or standard input, processes nothing and calls no formatter |
| Properties.StdinFailureStops | yang.go:136-145 | with no arguments, a failure to read or parse standard input is written, and the run exits with 1 before processing and without output |
| Properties.StdinParsedOnce | yang.go:134-139 | when standard input parses, the model set processed is the new one after a single parse of it as `<STDIN>` |
| Properties.ReadAllReadsEveryFile | yang.go:147-152 | the file loop reads every listed file in order, failed or not, writes only the reads and their errors, records one read per file on the model set, and its events are the blocks of `ReadAllBlocks` |
| Properties.ReadAllBlocks | yang.go:147-152 | closed form of the file loop: for each `i`, the read of `files[i]`, then the error that read returned on the model set holding the reads of `files[..i]` if it failed, and nothing if it succeeded; the model set left holds one read per file, in order |
| Properties.FileListReadsEveryFile | yang.go:147-152 | in file-list mode the files read are exactly the arguments in order; `GetModule` and standard input are not used and no tree is written directly |
| Properties.FileListLoadsEveryFile | yang.go:147-152 | the model set processed in file-list mode is the new one after one read per listed file, in order |
| Properties.FinishRendersOnSuccess | yang.go:155-174 | status 0 iff processing reports no error; the formatter is called once in that case and never otherwise, as the last event, with the selected trees |
| Properties.RunIsFinish | yang.go:95-174 | when loading succeeds, a run is the trace start, the input events, and then processing and rendering; nothing before processing writes output |
| Properties.ProcessErrorsStop | yang.go:155 | a non-empty batch of processing errors ends the run with those errors written last, status 1, and no formatter call or tree written |
| Properties.SuccessRendersOnce | yang.go:155-174 | when loading and processing succeed, the run exits with 0. The formatter is called exactly once, as the last event, with `TopLevel` of the processed modules, and no tree is written directly |
| Properties.ExitZeroIffProcessed | yang.go:136-174 | outside named-module mode, the run exits with 0 iff standard input (if used) reads and parses and processing reports no error |
| Properties.ExitStatusAndOutput | yang.go:78-175 | every run exits with 0 or 1, and a run that exits with 1 has written no tree and called no formatter |

## Left out

- Trace handling beyond creating the file: `trace.Start` is one event. The
  redefined `stop` and the deferred `trace.Stop` only flush the trace, so
  `stop` is modelled as a plain exit.
- Flag parsing (`getopt`) and the usage text: the parsed `--help`, `--format`,
  `--trace`, `--path` and positional arguments are the inputs (`Options`).
  `--path` reaches the library as the `path` of every model set and of
  `GetModule`.
- Real I/O and message text. What reaches standard error or standard output
  is recorded as events (`ErrorLine`, `FormatHelp`, `InvalidFormat`, ...) and
  not as bytes. Reading standard input and creating the trace file are inputs
  (`Env`).
- The schema library (`GetModule`, `Parse`, `Read`, `Process`, `ToEntry`),
  including the `MODULES.yang` fallback and the search-path lookup inside
  `GetModule`. These are arbitrary functions of `Library`. `Write` in yang.go
  is not part of this model; it is the `WriteTree` event.
- Formatter render functions: their output is not modelled; the call is the
  `Render` event with its formatter and trees.
- Go map order is an arbitrary choice (`:|`) or an arbitrary sequence
  (`lib.modules`). The model claims no more about which of two same-named
  modules is kept than "the first in that sequence".
- A nil `*yang.Module` inside `ms.Modules`: the model's modules are values,
  so the `mods[m.Name] == nil` test is modelled as "name not yet in `mods`".
- Strings are sequences of Unicode scalar values (Dafny `string`). Go strings
  are byte strings and may hold invalid UTF-8 (file or module names); for
  those, the model's code-point order need not agree with Go's byte order.

Which of two same-named modules is displayed depends on the order in which
`range ms.Modules` visits them (yang.go:162-167 keeps the first one met), and
Go leaves that order unspecified. Sorting the names (yang.go:168) fixes the
order of the trees but not which module stands for a name. So two orders of
the same model set can display different trees
(`Selection.FirstSeenDependsOnOrder`). The output is independent of the order
only when no two different modules share a name
(`Selection.TopLevelOrderIndependent`).
