/**
 * The parts of the javadoc `ClassDoc` API the doclet core reads, as a plain
 * record. Members are opaque apart from the one flag the renderer inspects.
 */
module Javadoc {

  datatype FieldDoc = FieldDoc(name: string)

  datatype ConstructorDoc = ConstructorDoc(signature: string)

  datatype MethodDoc = MethodDoc(signature: string, isAbstract: bool)

  /**
   * A documented class. `isInner` stands for `containingClass() != null` and
   * `isDeprecated` for what `Renderer.isDeprecated` answers; the member lists
   * are what `fields(false)`, `constructors(false)` and `methods(false)`
   * return, in their order.
   */
  datatype ClassDoc = ClassDoc(
    qualifiedTypeName: string,
    isPrivate: bool,
    isPackagePrivate: bool,
    isProtected: bool,
    isEnum: bool,
    isInterface: bool,
    isAbstract: bool,
    isInner: bool,
    isDeprecated: bool,
    fields: seq<FieldDoc>,
    constructors: seq<ConstructorDoc>,
    methods: seq<MethodDoc>)
}
