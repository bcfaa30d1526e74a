/** The "ValidatePictureMetadataOp" automation operation: sanity checks on
    the input document, then the validator's field checks, raising the
    validator's message instead of returning it. */
module ValidatePictureMetadataOp {
  import opened Java
  import opened DocumentModel
  import opened ValidatePictureMetadata

  /** The exceptions the operation raises. */
  datatype OpError =
    | NotMutable
    | NoPictureSchema
    | NoImageMetadataSchema
    | NoBinary
      /** A reader failure, which the operation does not catch. */
    | ReaderError(message: Option<string>)
      /** Missing metadata, with the validator's message. */
    | InvalidMetadata(errorMsg: string)
  {
    /** The text of the exception: a fixed text for each sanity check, the
        reader's own (possibly null) message, or the validator's. */
    function Message(): (msg: Option<string>)
      ensures NotMutable? ==> msg == Some("The document cannot be a version or a proxy")
      ensures NoPictureSchema? ==> msg == Some("The document does not have the 'picture' schema")
      ensures NoImageMetadataSchema? ==> msg == Some("The document does not have the 'image_metadata' schema")
      ensures NoBinary? ==> msg == Some("The document has no binary attached")
      ensures ReaderError? ==> msg == message
      ensures InvalidMetadata? ==> msg == Some(errorMsg)
    {
      match this
      case NotMutable => Some("The document cannot be a version or a proxy")
      case NoPictureSchema => Some("The document does not have the 'picture' schema")
      case NoImageMetadataSchema => Some("The document does not have the 'image_metadata' schema")
      case NoBinary => Some("The document has no binary attached")
      case ReaderError(message) => message
      case InvalidMetadata(errorMsg) => Some(errorMsg)
    }
  }

  datatype Result<T> = Success(value: T) | Failure(error: OpError)

  /** getPropertyValue("file:content") with its PropertyException caught:
      a document without the "file" schema reads as a null blob. The
      builder's main blob comes from a different call (the BlobHolder
      adapter) that this model takes to read the same property, so the two
      functions agree; each is kept beside the code that makes its call. */
  function ContentValue(doc: Document): (blob: Option<Blob>)
    ensures !doc.HasSchema("file") ==> blob.None?
    ensures doc.HasSchema("file") ==> blob == doc.content
  {
    if doc.HasSchema("file") then doc.content else None
  }

  /** The document passes the three schema and mutability checks. */
  predicate SaneDocument(doc: Document) {
    !doc.immutable && doc.HasSchema("picture") && doc.HasSchema("image_metadata")
  }

  method Run(inDoc: Document, reader: Blob -> MetadataReading) returns (r: Result<Document>)
    ensures r.Success? ==> r.value == inDoc
    ensures inDoc.immutable ==> r == Failure(NotMutable)
    ensures !inDoc.immutable && !inDoc.HasSchema("picture") ==> r == Failure(NoPictureSchema)
    ensures !inDoc.immutable && inDoc.HasSchema("picture") && !inDoc.HasSchema("image_metadata")
      ==> r == Failure(NoImageMetadataSchema)
    ensures SaneDocument(inDoc) && ContentValue(inDoc).None? ==> r == Failure(NoBinary)
    ensures SaneDocument(inDoc) && ContentValue(inDoc).Some? ==>
      var reading := reader(ContentValue(inDoc).value);
      && (reading.ReadFailed? ==> r == Failure(ReaderError(reading.message)))
      && (reading.Read? ==>
            var msg := ValidationMessage(reading);
            && (r.Success? <==> msg == Some(""))
            && (r.Failure? ==> r.error == InvalidMetadata(msg.value)))
  {
    if inDoc.immutable {
      return Failure(NotMutable);
    }
    if !inDoc.HasSchema("picture") {
      return Failure(NoPictureSchema);
    }
    if !inDoc.HasSchema("image_metadata") {
      return Failure(NoImageMetadataSchema);
    }

    var theBlob: Option<Blob> := None;
    if inDoc.HasSchema("file") {
      theBlob := inDoc.content;
    } else {
      // the PropertyException is caught and the blob stays null
      theBlob := None;
    }
    if theBlob.None? {
      return Failure(NoBinary);
    }

    var reading := reader(theBlob.value);
    if reading.ReadFailed? {
      return Failure(ReaderError(reading.message));
    }
    var errorMsg := MissingValuesCheck(reading.metadata);
    if errorMsg != "" {
      return Failure(InvalidMetadata(errorMsg));
    }
    return Success(inDoc);
  }
}
