/**
 * The schema library the driver calls (`github.com/openconfig/goyang/pkg/yang`).
 * Its algorithms are not part of this model: each operation the driver uses is
 * a field of `Library` that may be any function, so everything proved about
 * the driver holds whatever the library does.
 */
module Schema {
  import opened Wrappers

  /** An error returned by the library; the driver only prints it. */
  datatype Error = Error(message: string)

  /**
   * A parsed module (`*yang.Module`).  `id` stands for the object's identity:
   * the model set may hold several modules, or several references to one
   * module, under the same `name`.
   */
  datatype Module = Module(name: string, id: nat)

  /** A resolved tree (`*yang.Entry`), opaque to the driver. */
  datatype Entry = Entry(id: nat)

  /** A call the driver makes on a model set. */
  datatype Call =
    | ParseCall(data: string, source: string)
    | ReadCall(name: string)
    | ProcessCall

  /**
   * The library's mutable model set (`*yang.Modules`), represented by the
   * search path in effect and the calls made on it so far.  Whatever the
   * library later reports about a model set is a function of these.
   */
  datatype ModuleSet = ModuleSet(path: seq<string>, calls: seq<Call>)
  {
    /** The model set after one more call on it. */
    function After(c: Call): ModuleSet
    {
      ModuleSet(path, calls + [c])
    }
  }

  /** `yang.NewModules()`: a model set on which nothing has been called. */
  function NewModules(path: seq<string>): ModuleSet
  {
    ModuleSet(path, [])
  }

  /**
   * The library operations the driver relies on.
   *  - getModule(path, name, files): `yang.GetModule(name, files...)`, the tree
   *    for module `name` and the errors met while finding it;
   *  - parse(ms, data, source): `ms.Parse(data, source)`;
   *  - read(ms, file): `ms.Read(file)`;
   *  - process(ms): `ms.Process()`, the batch of errors it reports;
   *  - modules(ms): the values of `ms.Modules` in the order a `range` over
   *    that map visits them, which Go leaves unspecified;
   *  - toEntry(m): `yang.ToEntry(m)`.
   */
  datatype Library = Library(
    getModule: (seq<string>, string, seq<string>) -> (Entry, seq<Error>),
    parse: (ModuleSet, string, string) -> Option<Error>,
    read: (ModuleSet, string) -> Option<Error>,
    process: ModuleSet -> seq<Error>,
    modules: ModuleSet -> seq<Module>,
    toEntry: Module -> Entry)
}
