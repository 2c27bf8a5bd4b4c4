/**
 * What the setup tool reads from a loaded .NET module (a Mono.Cecil ModuleDefinition or a dnlib
 * ModuleDef): its location and name, the assembly version, the top-level types, the resources and
 * the assembly references.
 */
module Modules {

  /** System.Version. */
  datatype Version = Version(major: int, minor: int, build: int, revision: int)

  /** A type definition: namespace (possibly empty) and simple name. */
  datatype TypeDef = TypeDef(namespace: string, name: string) {
    /** The type's full name, the key the merge deduplicates types on. */
    function FullName(): string {
      if namespace == "" then name else namespace + "." + name
    }
  }

  /** A manifest resource; `embedded` says whether it is an EmbeddedResource (rather than a linked one). */
  datatype Resource = Resource(name: string, embedded: bool)

  /** An AssemblyNameReference: simple name, full display name, version. */
  datatype AssemblyRef = AssemblyRef(name: string, fullName: string, version: Version)

  datatype Module = Module(
    location: string,
    name: string,
    assemblyName: string,
    version: Version,
    types: seq<TypeDef>,
    resources: seq<Resource>,
    assemblyRefs: seq<AssemblyRef>)
}
