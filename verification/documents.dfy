/** The document system as the entry points see it: an application holding
    documents, each an ordered list of objects, and at most one active
    document. A document is identified by its position in the application. */
module Documents {
  import opened Results
  import opened PointCloud

  datatype Document = Document(name: string, objects: seq<DocumentObject>)

  datatype Application = Application(documents: seq<Document>, active: Option<nat>)

  /** The active document, when there is one, is one of the documents. */
  predicate Valid(app: Application)
  {
    app.active.Some? ==> app.active.value < |app.documents|
  }

  /** The first of `docs` named `name`. */
  function Find(docs: seq<Document>, name: string): (r: Option<nat>)
    ensures r.Some? ==> r.value < |docs| && docs[r.value].name == name
    ensures r.Some? ==> forall j :: 0 <= j < r.value ==> docs[j].name != name
    ensures r.None? ==> forall j :: 0 <= j < |docs| ==> docs[j].name != name
  {
    if docs == [] then None
    else if docs[0].name == name then Some(0)
    else match Find(docs[1..], name)
      case None => None
      case Some(k) => Some(k + 1)
  }

  /** Looks a document up by name. */
  function GetDocument(app: Application, name: string): Option<nat>
  {
    Find(app.documents, name)
  }

  /** Creates an empty document under the given name and makes it the active
      one; returns the application and the new document's position. */
  function NewDocument(app: Application, name: string): (r: (Application, nat))
    requires Valid(app)
    ensures Valid(r.0)
    ensures r.1 == |app.documents| && r.0.documents == app.documents + [Document(name, [])]
    ensures r.0.active == Some(r.1)
  {
    var k := |app.documents|;
    (Application(app.documents + [Document(name, [])], Some(k)), k)
  }

  /** Adds an object at the end of the object list of document `doc`. */
  function AddObject(app: Application, doc: nat, obj: DocumentObject): (r: Application)
    requires Valid(app) && doc < |app.documents|
    ensures Valid(r) && r.active == app.active && |r.documents| == |app.documents|
    ensures r.documents[doc] == Document(app.documents[doc].name, app.documents[doc].objects + [obj])
    ensures forall j :: 0 <= j < |app.documents| && j != doc ==> r.documents[j] == app.documents[j]
  {
    var d := app.documents[doc];
    app.(documents := app.documents[doc := Document(d.name, d.objects + [obj])])
  }
}
