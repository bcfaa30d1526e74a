/** The rendition provider: serves a rendition by returning the blob stored
    in picture:views under the rendition's name. */
module StoredPictureRenditionProvider {
  import opened Java
  import opened DocumentModel
  import opened StoredPictureRenditionBuilder

  /** The view the MultiviewPicture adapter returns for a title: the first
      view of the list carrying that title, or none. */
  function FindView(views: seq<PictureView>, title: string): (found: Option<PictureView>)
    ensures found.None? <==> forall i :: 0 <= i < |views| ==> views[i].title != title
    ensures found.Some? ==> found.value in views && found.value.title == title
    ensures found.Some? ==>
      exists i :: 0 <= i < |views| && views[i] == found.value && forall j :: 0 <= j < i ==> views[j].title != title
  {
    if views == [] then None
    else if views[0].title == title then Some(views[0])
    else
      var rest := FindView(views[1..], title);
      assert forall i :: 0 < i < |views| ==> views[i] == views[1..][i - 1];
      rest
  }

  /** Looking a title up in a list extended at the end finds the same view
      as before when the front already had one, and looks in the extension
      otherwise. */
  lemma {:induction false} FindViewInAppended(front: seq<PictureView>, back: seq<PictureView>, title: string)
    ensures FindView(front + back, title)
         == if FindView(front, title).Some? then FindView(front, title) else FindView(back, title)
  {
    if front != [] {
      assert (front + back)[1..] == front[1..] + back;
      FindViewInAppended(front[1..], back, title);
    } else {
      assert front + back == back;
    }
  }

  /** isAvailable: only Picture documents, and only when a view carries the
      rendition's name. */
  function IsAvailable(doc: Document, definition: RenditionDefinition): (available: bool)
    reads doc
    ensures doc.docType != PictureType ==> !available
    ensures doc.docType == PictureType ==>
      (available <==> doc.hasViewsAdapter && exists i :: 0 <= i < |doc.views| && doc.views[i].title == definition.name)
  {
    doc.docType == PictureType && doc.hasViewsAdapter && FindView(doc.views, definition.name).Some?
  }

  /** render: the blob of the view named after the rendition, or nothing.
      Unlike isAvailable it does not look at the document type. */
  function Render(doc: Document, definition: RenditionDefinition): (blobs: seq<Blob>)
    reads doc
    ensures |blobs| <= 1
    ensures blobs != [] <==> doc.hasViewsAdapter && exists i :: 0 <= i < |doc.views| && doc.views[i].title == definition.name
    ensures blobs != [] ==> blobs[0] == FindView(doc.views, definition.name).value.content
  {
    if doc.hasViewsAdapter then
      match FindView(doc.views, definition.name)
      case Some(view) => [view.content]
      case None => []
    else []
  }

  /** On a Picture document the provider never reports a rendition it
      cannot render, and renders exactly one blob for each it reports. */
  lemma AvailableIffRendered(doc: Document, definition: RenditionDefinition)
    requires doc.docType == PictureType
    ensures IsAvailable(doc, definition) <==> |Render(doc, definition)| == 1
  {
  }

  /** What the builder leaves behind is what the provider serves: after a
      build that completes, every definition whose command line is
      available has a view under its name; when the views held none under
      that name before, the view found is the one the build added, with a
      blob of the definition's content type. */
  lemma {:induction false} BuiltRenditionsAreServed(
    doc: Document, before: seq<PictureView>, defs: seq<RenditionDefinition>, available: string -> bool, env: Environment, i: nat)
    requires Renditions(doc, defs, |defs|, available, env).failure.None?
    requires 0 <= i < |defs| && available(defs[i].name)
    ensures var views := before + Renditions(doc, defs, |defs|, available, env).added;
      && FindView(views, defs[i].name).Some?
      && (FindView(before, defs[i].name).None? ==>
            exists j :: (0 <= j < |defs| && defs[j].name == defs[i].name
              && defs[j].contentType == FindView(views, defs[i].name).value.content.mimeType))
  {
    var added := Renditions(doc, defs, |defs|, available, env).added;
    CompletedRunAddsOneViewPerAvailableDefinition(doc, defs, |defs|, available, env);
    AddedViewsDescribeDefinitions(doc, defs, |defs|, available, env);
    FindViewInAppended(before, added, defs[i].name);
    var k := CountAvailable(defs, i, available);
    assert added[k].title == defs[i].name;
    if FindView(before, defs[i].name).None? {
      var found := FindView(added, defs[i].name).value;
      assert found in added;
    }
  }
}
