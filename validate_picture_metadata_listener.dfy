/** The synchronous pre-save listener: on creation of a mutable Picture, or
    on its update when the binary is dirty, it validates the binary and
    marks the event for rollback with the validator's message. */
module ValidatePictureMetadataListener {
  import opened Java
  import opened DocumentModel
  import opened ValidatePictureMetadata

  /** The exceptions the listener lets escape: looking up file:content on
      a document without that property, and calling isEmpty on a null
      message from the validator. */
  datatype ListenerError = PropertyNotFound(xpath: string) | NullReference(what: string)

  /** The document guard: a document event context whose document is
      mutable and of type exactly "Picture". */
  function AcceptsDocument(event: Event): (accepts: bool)
    ensures !event.context.DocumentEventContext? ==> !accepts
    ensures event.context.DocumentEventContext? ==>
      (accepts <==> !event.context.source.immutable && event.context.source.docType == PictureType)
  {
    && event.context.DocumentEventContext?
    && !event.context.source.immutable
    && event.context.source.docType == PictureType
  }

  /** The event guard: creation always, an update only with a dirty
      binary, nothing else. */
  function ChecksBinary(eventName: string, contentDirty: bool): (checks: bool)
    ensures eventName == AboutToCreate ==> checks
    ensures eventName == BeforeDocUpdate ==> (checks <==> contentDirty)
    ensures eventName != AboutToCreate && eventName != BeforeDocUpdate ==> !checks
  {
    eventName == AboutToCreate || (eventName == BeforeDocUpdate && contentDirty)
  }

  /** What checking the binary leads to: nothing, a rollback marked with
      the validator's message, or the null message dereferenced. */
  datatype Verdict = NoRollback | Rollback(message: string) | NullMessage

  function RollbackVerdict(event: Event, reader: Blob -> MetadataReading): (verdict: Verdict)
    requires AcceptsDocument(event) && event.context.source.HasSchema("file")
    ensures verdict.Rollback? ==> verdict.message != ""
    ensures event.context.source.content.None? ==> verdict == NoRollback
    ensures !ChecksBinary(event.name, event.context.source.contentDirty) ==> verdict == NoRollback
    ensures ChecksBinary(event.name, event.context.source.contentDirty) && event.context.source.content.Some? ==>
      var errorMsg := ValidationMessage(reader(event.context.source.content.value));
      && (verdict == NullMessage <==> errorMsg.None?)
      && (verdict == NoRollback <==> errorMsg == Some(""))
      && (verdict.Rollback? ==> Some(verdict.message) == errorMsg)
  {
    var doc := event.context.source;
    if ChecksBinary(event.name, doc.contentDirty) && doc.content.Some? then
      match ValidationMessage(reader(doc.content.value))
      case None => NullMessage
      case Some(errorMsg) => if errorMsg != "" then Rollback(errorMsg) else NoRollback
    else NoRollback
  }

  method HandleEvent(event: Event, reader: Blob -> MetadataReading) returns (error: Option<ListenerError>)
    modifies event
    ensures error.Some? <==>
      && AcceptsDocument(event)
      && (!event.context.source.HasSchema("file") || RollbackVerdict(event, reader).NullMessage?)
    ensures error.Some? && !event.context.source.HasSchema("file") ==> error.value == PropertyNotFound("file:content")
    ensures error.Some? && event.context.source.HasSchema("file") ==> error.value == NullReference("errorMsg")
    ensures |event.rollbackMarks| <= |old(event.rollbackMarks)| + 1
    ensures error.None? && AcceptsDocument(event) ==>
      event.rollbackMarks == old(event.rollbackMarks) +
        match RollbackVerdict(event, reader)
        case Rollback(msg) => [msg]
        case _ => []
    ensures !AcceptsDocument(event) || error.Some? ==> event.rollbackMarks == old(event.rollbackMarks)
  {
    error := None;
    if event.context.DocumentEventContext? {
      var doc := event.context.source;
      if !doc.immutable && doc.docType == PictureType {
        if !doc.HasSchema("file") {
          return Some(PropertyNotFound("file:content"));
        }
        if event.name == AboutToCreate || (event.name == BeforeDocUpdate && doc.contentDirty) {
          var theBlob := doc.content;
          if theBlob.Some? {
            var errorMsg := Validate(theBlob.value, reader);
            if errorMsg.None? {
              return Some(NullReference("errorMsg"));
            }
            if errorMsg.value != "" {
              event.MarkRollBack(errorMsg.value);
            }
          }
        }
      }
    }
  }
}
