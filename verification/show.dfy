/** The `show` entry point: attach an in-memory point cloud to the active
    document, or to a new one when no document is active, as a plain points
    feature named "Points". */
module Showing {
  import opened Results
  import opened PointCloud
  import opened Documents

  /** The feature `show` adds: the points and no other property. */
  function ShownFeature(cloud: seq<Vector3>): DocumentObject
  {
    PointsFeature("Points", PlainFeature, cloud, map[])
  }

  /** Returns the application afterwards and the position of the document
      the cloud went into. */
  function Show(app: Application, cloud: seq<Vector3>): (r: (Application, nat))
    requires Valid(app)
    ensures Valid(r.0) && r.1 < |r.0.documents|
    ensures app.active.Some? ==>
              && r.1 == app.active.value
              && r.0.documents == app.documents[r.1 := Document(app.documents[r.1].name, app.documents[r.1].objects + [ShownFeature(cloud)])]
    ensures r.0.documents[r.1].name == (if app.active.Some? then app.documents[r.1].name else "Unnamed")
    ensures app.active.None? ==>
              && r.1 == |app.documents|
              && r.0.documents == app.documents + [Document("Unnamed", [ShownFeature(cloud)])]
    ensures r.0.documents[r.1].objects ==
              (if r.1 < |app.documents| then app.documents[r.1].objects else []) + [ShownFeature(cloud)]
    ensures forall j :: 0 <= j < |app.documents| && j != r.1 ==> r.0.documents[j] == app.documents[j]
    ensures r.0.active == Some(r.1)
  {
    var (app1, doc) := match app.active
      case Some(k) => (app, k)
      case None => NewDocument(app, "Unnamed");
    var app2 := AddObject(app1, doc, ShownFeature(cloud));
    assert app.active.None? ==> app2.documents[doc].objects == [ShownFeature(cloud)];
    assert app.active.None? ==> app2.documents == app.documents + [Document("Unnamed", [ShownFeature(cloud)])];
    (app2, doc)
  }
}
