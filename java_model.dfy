/**
 * Opaque handles on the host IDE's Java model: packages, compilation units and
 * types, each knowing its logical parent. Nothing here parses or resolves Java;
 * the handles only carry the identity and parent links the quick assist reads.
 */
module JavaModel {

  datatype Option<+T> = None | Some(value: T)

  /** A Java model element: a package fragment, a compilation unit (a source
      file) inside a container, or a type inside a compilation unit or a type. */
  datatype JavaElement =
    | PackageFragment(packageName: string)
    | CompilationUnit(unitName: string, parent: JavaElement)
    | Type(typeName: string, parent: JavaElement)

  /** The handle of a type (an IType); the element the creation wizard returns. */
  type TypeHandle = e: JavaElement | e.Type? witness Type("", PackageFragment(""))

  /** An element that can receive a new type: a package or an enclosing type. */
  predicate IsTypeContainer(e: JavaElement)
  {
    e.PackageFragment? || e.Type?
  }

  /** The shape the Java model guarantees: a compilation unit sits in a type
      container, a type sits in a compilation unit or in another type. */
  predicate WellFormed(e: JavaElement)
  {
    match e
    case PackageFragment(_) => true
    case CompilationUnit(_, p) => IsTypeContainer(p) && WellFormed(p)
    case Type(_, p) => (p.CompilationUnit? || p.Type?) && WellFormed(p)
  }
}
