/** The host platform's entities as the plugin sees them: blobs, picture
    views, documents, events and the core session that saves documents. */
module DocumentModel {
  import opened Java

  /** The name of the "about to create" lifecycle event. */
  const AboutToCreate: string := "aboutToCreate"
  /** The name of the "before document modification" lifecycle event. */
  const BeforeDocUpdate: string := "beforeDocumentModification"
  /** The name of the signal the picture pipeline raises once the default
      views are computed. */
  const PictureViewsGenerationDone: string := "pictureViewsGenerationDone"

  /** The document type both listeners and the provider accept. */
  const PictureType: string := "Picture"

  /** A binary payload: an opaque location for its bytes, its file name
      (which may be null) and its mime-type. */
  datatype Blob = Blob(location: string, filename: Option<string>, mimeType: string)

  /** One entry of the picture:views field. Width and height read 0 when
      they were never set. */
  datatype PictureView = PictureView(
    title: string,
    content: Blob,
    filename: string,
    description: string,
    tag: string,
    width: int,
    height: int)

  /** A document. Everything the plugin only reads is a constant; the
      picture:views field, which the rendition builder appends to, is the
      one variable. */
  class Document {
    const id: string
    const docType: string
    /** True for versions and proxies. */
    const immutable: bool
    const schemas: set<string>
    /** The value of file:content (None is a null blob). */
    const content: Option<Blob>
    /** Whether file:content is marked dirty. */
    const contentDirty: bool
    /** The value of dc:created (None is a null date). */
    const created: Option<Date>
    /** Whether the document adapts to MultiviewPicture. */
    const hasViewsAdapter: bool
    /** The entries of picture:views, in the order they were added. */
    var views: seq<PictureView>

    constructor (
      id: string, docType: string, immutable: bool, schemas: set<string>,
      content: Option<Blob>, contentDirty: bool, created: Option<Date>,
      hasViewsAdapter: bool, views: seq<PictureView>)
      ensures this.id == id && this.docType == docType && this.immutable == immutable
      ensures this.schemas == schemas && this.content == content
      ensures this.contentDirty == contentDirty && this.created == created
      ensures this.hasViewsAdapter == hasViewsAdapter && this.views == views
    {
      this.id, this.docType, this.immutable, this.schemas := id, docType, immutable, schemas;
      this.content, this.contentDirty, this.created := content, contentDirty, created;
      this.hasViewsAdapter, this.views := hasViewsAdapter, views;
    }

    predicate HasSchema(name: string) {
      name in schemas
    }
  }

  /** The context an event carries: a document event context with its
      source document, or any other kind of context. */
  datatype EventContext = DocumentEventContext(source: Document) | OtherContext

  /** An event delivered to a listener. A listener can mark it for rollback,
      which records the message. */
  class Event {
    const name: string
    const context: EventContext
    /** The messages passed to markRollBack, in order. */
    var rollbackMarks: seq<string>

    constructor (name: string, context: EventContext)
      ensures this.name == name && this.context == context && rollbackMarks == []
    {
      this.name, this.context, rollbackMarks := name, context, [];
    }

    method MarkRollBack(message: string)
      modifies this
      ensures rollbackMarks == old(rollbackMarks) + [message]
    {
      rollbackMarks := rollbackMarks + [message];
    }
  }

  /** The session through which documents are saved; `saved` records every
      save in order. */
  class CoreSession {
    var saved: seq<Document>

    constructor ()
      ensures saved == []
    {
      saved := [];
    }

    method SaveDocument(doc: Document) returns (r: Document)
      modifies this
      ensures saved == old(saved) + [doc] && r == doc
    {
      saved := saved + [doc];
      r := doc;
    }
  }
}
