/** The point-cloud values the Points entry points move between readers,
    document objects and writers. Coordinates, grey values, colours and
    normals are carried but never computed with, so they stay plain records. */
module PointCloud {
  import opened Results

  /** A point or a normal vector. */
  datatype Vector3 = Vector3(x: real, y: real, z: real)

  /** An RGBA colour of a colour list. */
  datatype Color = Color(r: real, g: real, b: real, a: real)

  /** The typed value of a feature property, as far as the entry points look
      at property types: integers (Width, Height), grey-value lists, colour
      lists, normal lists, and every other property type. */
  datatype Property =
    | IntegerProperty(intValue: int)
    | GreyValueList(greys: seq<real>)
    | ColorList(colors: seq<Color>)
    | NormalList(normals: seq<Vector3>)
    | OtherProperty(typeName: string)

  /** The concrete point-feature types the importer creates. All three derive
      from the plain points feature type. */
  datatype FeatureKind = PlainFeature | StructuredCustom | FeatureCustom

  /** A document object: either a points feature (any type derived from the
      points feature type) with its point kernel and its properties by name,
      or an object of some other type, of which only the label is used. The
      label is the name the object was added under. */
  datatype DocumentObject =
    | PointsFeature(objectLabel: string, kind: FeatureKind, points: seq<Vector3>, properties: map<string, Property>)
    | OtherObject(objectLabel: string, typeName: string)

  /** The property names the entry points read and write. */
  const WidthName := "Width"
  const HeightName := "Height"
  const IntensityName := "Intensity"
  const ColorName := "Color"
  const NormalName := "Normal"

  /** The only property names the importer ever sets. */
  const ImportedNames: set<string> := {WidthName, HeightName, IntensityName, ColorName, NormalName}

  /** Typed lookup of a property by name: a property of that name but of
      another type counts as absent. */
  function IntegerNamed(props: map<string, Property>, name: string): Option<int>
  {
    if name in props && props[name].IntegerProperty? then Some(props[name].intValue) else None
  }

  function GreysNamed(props: map<string, Property>, name: string): Option<seq<real>>
  {
    if name in props && props[name].GreyValueList? then Some(props[name].greys) else None
  }

  function ColorsNamed(props: map<string, Property>, name: string): Option<seq<Color>>
  {
    if name in props && props[name].ColorList? then Some(props[name].colors) else None
  }

  function NormalsNamed(props: map<string, Property>, name: string): Option<seq<Vector3>>
  {
    if name in props && props[name].NormalList? then Some(props[name].normals) else None
  }

  /** The channel data a writer receives: the point kernel and whichever of
      width, height, intensities, colours and normals were found. */
  datatype Bundle = Bundle(
    points: seq<Vector3>,
    width: Option<int>,
    height: Option<int>,
    intensities: Option<seq<real>>,
    colors: Option<seq<Color>>,
    normals: Option<seq<Vector3>>)

  /** A points feature whose channels are aligned with its points, and whose
      grid, when it has one, covers exactly its points. */
  predicate Coherent(f: DocumentObject)
    requires f.PointsFeature?
  {
    var n := |f.points|;
    && (GreysNamed(f.properties, IntensityName).Some? ==> |GreysNamed(f.properties, IntensityName).value| == n)
    && (ColorsNamed(f.properties, ColorName).Some? ==> |ColorsNamed(f.properties, ColorName).value| == n)
    && (NormalsNamed(f.properties, NormalName).Some? ==> |NormalsNamed(f.properties, NormalName).value| == n)
    && (IntegerNamed(f.properties, WidthName).Some? && IntegerNamed(f.properties, HeightName).Some? ==>
          IntegerNamed(f.properties, WidthName).value * IntegerNamed(f.properties, HeightName).value == n)
  }
}
