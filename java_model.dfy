/**
 * The part of the Java world that the code generator reads and writes: JavaPoet class names,
 * modifiers, and the descriptions (type and method specifications) that JavaPoet renders to source.
 */
module JavaModel {
  import opened Wrappers

  datatype Modifier = Public | Protected | Private | Abstract | Static | Final

  /**
   * A JavaPoet `ClassName`: the package (dotted, possibly empty), the simple names of the
   * enclosing classes outermost first, and the class's own simple name.
   */
  datatype ClassName = ClassName(packageName: string, enclosing: seq<string>, simpleName: string)

  /** A Java identifier as it appears in a class name: never empty and never holding a dot. */
  predicate IsSimpleName(s: string) {
    s != [] && '.' !in s
  }

  predicate WellFormedClassName(c: ClassName) {
    && IsSimpleName(c.simpleName)
    && forall i :: 0 <= i < |c.enclosing| ==> IsSimpleName(c.enclosing[i])
  }

  /** The names joined by `sep`. */
  function Join(names: seq<string>, sep: char): (s: string)
    ensures names == [] ==> s == []
  {
    if names == [] then []
    else if |names| == 1 then names[0]
    else names[0] + [sep] + Join(names[1..], sep)
  }

  /** JavaPoet's `reflectionName()`: the package, a dot, then the nested simple names joined by `$`. */
  function ReflectionName(c: ClassName): string {
    (if c.packageName == [] then [] else c.packageName + ".") + Join(c.enclosing + [c.simpleName], '$')
  }

  /** Every occurrence of `from` in `s` replaced by `to`: Kotlin's `String.replace(Char, Char)`. */
  function Replace(s: string, from: char, to: char): (r: string)
    ensures |r| == |s|
    ensures forall i :: 0 <= i < |s| ==> r[i] == (if s[i] == from then to else s[i])
  {
    seq(|s|, i requires 0 <= i < |s| => if s[i] == from then to else s[i])
  }

  /** The simple names of the enclosing classes, each followed by `$`. */
  function NestingPrefix(enclosing: seq<string>): string {
    if enclosing == [] then [] else enclosing[0] + "$" + NestingPrefix(enclosing[1..])
  }

  /**
   * AssistedInject's `peerClassWithReflectionNesting(name)`: a top-level class in the same
   * package whose simple name is the reflection nesting of `c` (`Outer$`) followed by `name`.
   */
  function PeerClassWithReflectionNesting(c: ClassName, name: string): (r: ClassName)
    ensures r.packageName == c.packageName && r.enclosing == []
    ensures c.enclosing == [] ==> r.simpleName == name
  {
    ClassName(c.packageName, [], NestingPrefix(c.enclosing) + name)
  }

  /** AssistedInject's `assistedInjectFactoryName()`: the generated per-class factory `<Nesting>_AssistedFactory`. */
  function AssistedInjectFactoryName(c: ClassName): ClassName {
    PeerClassWithReflectionNesting(c, c.simpleName + "_AssistedFactory")
  }

  /** A value given to an annotation member. */
  datatype AnnotationValue = ClassLiteral(cls: ClassName) | StringLiteral(text: string)

  /** A JavaPoet `AnnotationSpec`: the annotation type and its members in order. */
  datatype AnnotationSpec = AnnotationSpec(annotationType: ClassName, members: seq<(string, AnnotationValue)>)

  datatype MethodName = ConstructorName | Named(name: string)

  datatype ParameterSpec = ParameterSpec(paramType: ClassName, name: string)

  /** A JavaPoet `MethodSpec`; `returnType` is `None` for a constructor. */
  datatype MethodSpec = MethodSpec(
    name: MethodName,
    annotations: seq<AnnotationSpec>,
    modifiers: seq<Modifier>,
    returnType: Option<ClassName>,
    parameters: seq<ParameterSpec>)

  /** A JavaPoet `TypeSpec` for a class. */
  datatype TypeSpec = TypeSpec(
    name: ClassName,
    annotations: seq<AnnotationSpec>,
    modifiers: seq<Modifier>,
    methods: seq<MethodSpec>)
}
