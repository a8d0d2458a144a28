/** The view of go/types both the import tracker and the resolver work with. */
module GoTypes {
  /** A package (*types.Package) as the model sees it: its import path and its declared
      name. None in an Option<Package> is a nil package. */
  datatype Package = Package(path: string, name: string)
}
