/**
 * The parts of the documentation model (`doc.Package` and its symbols) that
 * the core reads or changes. The loader reports a package as a value
 * (`PackageInfo`); the core works on a `Package` object it changes in place.
 */
module Doc {

  datatype Example = Example(name: string, doc: string, code: string, output: string)

  datatype Func = Func(name: string, doc: string, examples: seq<Example>)

  /** A type with its factory functions, its methods and its own examples. */
  datatype Type = Type(name: string, doc: string, funcs: seq<Func>, methods: seq<Func>, examples: seq<Example>)

  datatype PackageInfo = PackageInfo(
    importPath: string,
    name: string,
    doc: string,
    isCmd: bool,
    subdirectories: seq<string>,
    funcs: seq<Func>,
    types: seq<Type>,
    examples: seq<Example>)

  class Package {
    var importPath: string
    var name: string
    var doc: string
    var isCmd: bool
    var subdirectories: seq<string>
    var funcs: seq<Func>
    var types: seq<Type>
    var examples: seq<Example>

    /** The package's current contents as a value. */
    function View(): PackageInfo
      reads this
    {
      PackageInfo(importPath, name, doc, isCmd, subdirectories, funcs, types, examples)
    }

    constructor (info: PackageInfo)
      ensures View() == info
    {
      importPath := info.importPath;
      name := info.name;
      doc := info.doc;
      isCmd := info.isCmd;
      subdirectories := info.subdirectories;
      funcs := info.funcs;
      types := info.types;
      examples := info.examples;
    }
  }
}
