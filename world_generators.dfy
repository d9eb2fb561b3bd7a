/** Instantiation of world generators by class name and their display names
    (`WorldGenerators.createWorldGenerator`, `getAnnotatedDisplayName`), with
    reflection replaced by a description of each class on the class path. */
module WorldGenerators {
  import opened Wrappers
  import opened Facets

  /** `SimpleUri(moduleName, objectName)`. */
  datatype SimpleUri = SimpleUri(moduleName: string, objectName: string)

  /** The `@RegisterWorldGenerator(id, displayName)` annotation. */
  datatype RegisterWorldGenerator = RegisterWorldGenerator(id: string, displayName: string)

  /** What reflection can learn about a loadable class. */
  datatype ClassInfo = ClassInfo(
    simpleName: string,
    links: bool,                     // loading and static initialisation finish without a LinkageError
    implementsWorldGenerator: bool,  // WorldGenerator.class.isAssignableFrom(clazz)
    annotation: Option<RegisterWorldGenerator>,
    hasUriConstructor: bool,         // getConstructor(SimpleUri.class) finds one
    constructorSucceeds: bool,       // newInstance(uri) returns normally
    facets: seq<FacetClass>)         // the facets a constructed instance declares

  /** The classes `Class.forName` can resolve, by fully qualified name. */
  type ClassPath = map<string, ClassInfo>

  /** A constructed generator: its class, the URI it was constructed with and
      the facets its world declares. */
  datatype WorldGenerator = WorldGenerator(className: string, uri: SimpleUri, facets: seq<FacetClass>)

  /** The check of `createWorldGenerator` that failed. */
  datatype CreationFailure =
    | ClassNotFound
    | NotLoadable
    | NotAWorldGenerator
    | NotAnnotated
    | NoUriConstructor
    | ConstructionFailed

  /** The module name of the URI every created generator receives. */
  const UnknownModule: string := "unknown"

  /** A class that `createWorldGenerator` can instantiate: it resolves and links,
      implements `WorldGenerator`, is annotated, and its `SimpleUri` constructor
      exists and returns normally. */
  predicate Instantiable(classPath: ClassPath, className: string)
  {
    && className in classPath
    && classPath[className].links
    && classPath[className].implementsWorldGenerator
    && classPath[className].annotation.Some?
    && classPath[className].hasUriConstructor
    && classPath[className].constructorSucceeds
  }

  /** The body of the `try` block of `createWorldGenerator`: the checks in source
      order, the first failing one ending the attempt. */
  function Instantiate(classPath: ClassPath, className: string): (r: Result<WorldGenerator, CreationFailure>)
    ensures r.Success? <==> Instantiable(classPath, className)
  {
    if className !in classPath then Failure(ClassNotFound)
    else
      var c := classPath[className];
      if !c.links then Failure(NotLoadable)
      else if !c.implementsWorldGenerator then Failure(NotAWorldGenerator)
      else if c.annotation.None? then Failure(NotAnnotated)
      else if !c.hasUriConstructor then Failure(NoUriConstructor)
      else if !c.constructorSucceeds then Failure(ConstructionFailed)
      else Success(WorldGenerator(className, SimpleUri(UnknownModule, c.annotation.value.id), c.facets))
  }

  /** `createWorldGenerator`: every failure is caught and becomes `null`; a
      generator is returned only when every check passes, constructed with the
      URI `unknown:<annotation id>`. */
  function CreateWorldGenerator(classPath: ClassPath, className: string): (g: Option<WorldGenerator>)
    ensures g == None <==> Instantiate(classPath, className).Failure?
    ensures g.Some? ==>
              && g.value.className == className
              && g.value.uri == SimpleUri(UnknownModule, classPath[className].annotation.value.id)
              && g.value.facets == classPath[className].facets
  {
    Instantiate(classPath, className).ToOption()
  }

  /** The attempt fails with `e` exactly when the check `e` names is the first
      check in source order that does not pass. */
  lemma FirstFailingCheckDecides(classPath: ClassPath, className: string)
    ensures Instantiate(classPath, className) == Failure(ClassNotFound) <==> className !in classPath
    ensures Instantiate(classPath, className) == Failure(NotLoadable) <==>
              className in classPath && !classPath[className].links
    ensures Instantiate(classPath, className) == Failure(NotAWorldGenerator) <==>
              && className in classPath && classPath[className].links
              && !classPath[className].implementsWorldGenerator
    ensures Instantiate(classPath, className) == Failure(NotAnnotated) <==>
              && className in classPath && classPath[className].links
              && classPath[className].implementsWorldGenerator
              && classPath[className].annotation.None?
    ensures Instantiate(classPath, className) == Failure(NoUriConstructor) <==>
              && className in classPath && classPath[className].links
              && classPath[className].implementsWorldGenerator
              && classPath[className].annotation.Some?
              && !classPath[className].hasUriConstructor
    ensures Instantiate(classPath, className) == Failure(ConstructionFailed) <==>
              && className in classPath && classPath[className].links
              && classPath[className].implementsWorldGenerator
              && classPath[className].annotation.Some?
              && classPath[className].hasUriConstructor
              && !classPath[className].constructorSucceeds
  {
  }

  /** A class that does not implement `WorldGenerator` yields `null` whatever its
      annotation and constructors: they are never consulted. */
  lemma NonGeneratorNeverConsultsAnnotation(classPath: ClassPath, className: string, other: ClassInfo)
    requires className in classPath && !classPath[className].implementsWorldGenerator
    requires other.links == classPath[className].links && !other.implementsWorldGenerator
    ensures CreateWorldGenerator(classPath, className) == None
    ensures Instantiate(classPath[className := other], className) == Instantiate(classPath, className)
  {
  }

  /** A generator class without `@RegisterWorldGenerator` yields `null` whatever
      its constructors: they are never consulted. */
  lemma UnannotatedNeverConsultsConstructor(classPath: ClassPath, className: string, other: ClassInfo)
    requires className in classPath && classPath[className].annotation.None?
    requires other.links == classPath[className].links
    requires other.implementsWorldGenerator == classPath[className].implementsWorldGenerator
    requires other.annotation.None?
    ensures CreateWorldGenerator(classPath, className) == None
    ensures Instantiate(classPath[className := other], className) == Instantiate(classPath, className)
  {
  }

  /** `getAnnotatedDisplayName`: the annotation's display name when the class is
      annotated, its simple name otherwise. */
  function AnnotatedDisplayName(c: ClassInfo): (name: string)
    ensures c.annotation.Some? ==> name == c.annotation.value.displayName
    ensures c.annotation.None? ==> name == c.simpleName
  {
    match c.annotation
    case Some(anno) => anno.displayName
    case None => c.simpleName
  }

  /** A generator that was created is shown under the display name of the very
      annotation whose id named its URI. */
  lemma CreatedGeneratorNamedByItsAnnotation(classPath: ClassPath, className: string)
    requires CreateWorldGenerator(classPath, className).Some?
    ensures exists anno :: classPath[className].annotation == Some(anno) &&
              CreateWorldGenerator(classPath, className).value.uri.objectName == anno.id &&
              AnnotatedDisplayName(classPath[className]) == anno.displayName
  {
    var anno := classPath[className].annotation.value;
    assert classPath[className].annotation == Some(anno);
  }
}
