/**
 * The type catalog the checkin consults. It is given, not computed: which classes are
 * versioned per record, which references have an inverse, and what the opposite of a
 * reference is, as seen from the class of the referenced object.
 */
module Schema {
  import opened Wrappers

  /** An EClass, identified by its package name and class name. */
  datatype EClass = EClass(ePackage: string, name: string)

  /** An EReference: its name and whether it is many-valued. */
  datatype Feature = Feature(name: string, many: bool)

  datatype Catalog = Catalog(
    perRecordVersioned: set<EClass>,
    inverseReferences: map<EClass, seq<Feature>>,
    opposites: map<(EClass, Feature), Feature>)
  {
    /** DatabaseSession.perRecordVersioning */
    predicate PerRecordVersioning(c: EClass) {
      c in perRecordVersioned
    }

    /** PackageMetaData.hasInverses */
    predicate HasInverses(c: EClass) {
      c in inverseReferences
    }

    /** PackageMetaData.getAllHasInverseReferences */
    function AllHasInverseReferences(c: EClass): seq<Feature> {
      if c in inverseReferences then inverseReferences[c] else []
    }

    /** PackageMetaData.getInverseOrOpposite; None stands for null. */
    function InverseOrOpposite(c: EClass, f: Feature): Option<Feature> {
      if (c, f) in opposites then Some(opposites[(c, f)]) else None
    }
  }

  const GeometryInfo: EClass := EClass("geometry", "GeometryInfo")
  const GeometryData: EClass := EClass("geometry", "GeometryData")
}
