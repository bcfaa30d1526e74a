# nuxeo-fujixerox picture plugin — a Dafny model

This project models the decision-and-formatting core of the nuxeo-fujixerox
plugin, which is a set of extensions for a content-management host that
stores pictures:

- **Metadata validation.** `ValidatePictureMetadata.validate` lists the
  missing required fields of a picture (X-Resolution, Y-Resolution,
  Colorspace) and builds the English message the plugin shows for them. The
  `ValidatePictureMetadataOp` automation operation runs the same checks after
  its sanity checks on the document. `ValidatePictureMetadataListener` runs
  them before a Picture is created or its binary is updated, and marks the
  transaction for rollback with the message.
- **Stored renditions.**
  - `StoredPictureRenditionBuilder` runs one command line per declared
    rendition definition whose command is available. Availability is kept in
    a process-wide cache. The builder appends each output to the document's
    `picture:views`.
  - `StoredPictureRenditionProvider` serves a rendition by looking up the
    view named after it.
  - `PictureViewsGenerationDoneListener` builds and saves the renditions of
    each document in an event bundle, and stops at the first build that
    throws.

Each Java file has its own module:

| Module | Contents |
|---|---|
| `ValidatePictureMetadata` | The validator. |
| `ValidatePictureMetadataOp` | The operation. |
| `ValidatePictureMetadataListener` | The pre-save listener. |
| `StoredPictureRenditionBuilder` | The builder and its availability cache. |
| `StoredPictureRenditionProvider` | The provider. |
| `PictureViewsGenerationDoneListener` | The post-commit listener. |
| `Java` | The parts of the Java runtime the messages depend on: null references, `Integer.toString`, string concatenation of `null`, `AbstractCollection.toString`, `String.replace` and `SimpleDateFormat("yyyy-MM-dd")`. |
| `DocumentModel` | The host's document, event and session objects. |

Modelling choices:

- **State and oracles.** A document is a class whose only mutable field is
  its list of views. Events (their rollback marks), the session (the
  documents it saved) and the availability cache (its map) are classes as
  well.
- **Builder methods.** The builder's methods update these objects in
  place. Each is proved against a pure function of the inputs: `CommandStep`
  for one definition, `Renditions` for the loop, `Handled` and `AddedTo` for
  the listener's bundle loop. The properties the plugin promises are lemmas
  about those functions.
- **External services.** The metadata reader, the command-line executor,
  the image-info service and the file paths are function-valued parameters
  (oracles).
- **Exceptions.** Exceptions are values: `OpError`, `BuildError` and
  `ListenerFailure`. A dereference of a null reference on a path the source
  does not guard is a `NullReference` error, not a precondition. This covers
  a missing main blob, a missing `dc:created`, a missing views adapter and
  a null message from the validator.

## Model

| member | source | states |
|---|---|---|
| `ValidatePictureMetadata.MissingFields` | nuxeo-fujixerox-plugin/src/main/java/org/nuxeo/fujixerox/ValidatePictureMetadata.java:43-52 | Each field is in the list exactly when it is missing (zero X DPI, zero Y DPI, empty colorspace). The list holds at most three fields, each once, in the order X-Resolution, Y-Resolution, Colorspace. |
| `ValidatePictureMetadata.MissingFieldsInOrder` | nuxeo-fujixerox-plugin/src/main/java/org/nuxeo/fujixerox/ValidatePictureMetadata.java:43-52 | The missing-field list is the concatenation of the three conditional appends, in the source's order. |
| `ValidatePictureMetadata.Names` | nuxeo-fujixerox-plugin/src/main/java/org/nuxeo/fujixerox/ValidatePictureMetadata.java:43-52 | Each appended entry is the field's reported name, in the same position. |
| `ValidatePictureMetadata.MissingValuesMessage` | nuxeo-fujixerox-plugin/src/main/java/org/nuxeo/fujixerox/ValidatePictureMetadata.java:57-67 | The message is empty exactly when no field is missing. |
| `ValidatePictureMetadata.ValidationMessage` | nuxeo-fujixerox-plugin/src/main/java/org/nuxeo/fujixerox/ValidatePictureMetadata.java:19-74 | A reader failure gives the failure's message, which may be null, and no field check. Only a reader failure gives null. The result is the empty text exactly when all three fields are present, or when the reader failed with an empty message. |
| `ValidatePictureMetadata.MessageFormat` | nuxeo-fujixerox-plugin/src/main/java/org/nuxeo/fujixerox/ValidatePictureMetadata.java:57-66 | Several missing fields: "This image has N missing values in its metadata: " and then the names joined with ", ". One: "This image has a missing value in its metadata: " and then the name. None: "". |
| `ValidatePictureMetadata.TwoMissing` | nuxeo-fujixerox-plugin/src/main/java/org/nuxeo/fujixerox/ValidatePictureMetadata.java:43-52 | Zero DPI on both axes with a colorspace gives exactly [X-Resolution, Y-Resolution]. |
| `ValidatePictureMetadata.TwoNamesJoined` | nuxeo-fujixerox-plugin/src/main/java/org/nuxeo/fujixerox/ValidatePictureMetadata.java:66 | Those two names joined read "X-Resolution, Y-Resolution". |
| `ValidatePictureMetadata.TwoResolutionsMissing` | nuxeo-fujixerox-plugin/src/test/java/org/nuxeo/fujixerox/test/NuxeoFujiXeroxTest.java:147 | The exact text the integration test expects: "This image has 2 missing values in its metadata: X-Resolution, Y-Resolution". |
| `ValidatePictureMetadata.MissingValuesCheck` | nuxeo-fujixerox-plugin/src/main/java/org/nuxeo/fujixerox/ValidatePictureMetadata.java:43-67 | The error list built check by check, and the message built from it, equal the validator's message for the metadata. |
| `ValidatePictureMetadata.Validate` | nuxeo-fujixerox-plugin/src/main/java/org/nuxeo/fujixerox/ValidatePictureMetadata.java:19-74 | The method returns the validator's message for whatever the reader reports, including a caught reader failure's possibly null message. |
| `Java.NatToDecimal` | nuxeo-fujixerox-plugin/src/main/java/org/nuxeo/fujixerox/ValidatePictureMetadata.java:60 | The count in the message is written as at least one decimal digit, and as a single digit exactly below ten. It starts with '0' only for zero, so it has no leading zero. |
| `Java.IntToDecimal` | nuxeo-fujixerox-plugin/src/main/java/org/nuxeo/fujixerox/storedpicturerendition/StoredPictureRenditionBuilder.java:241 | An int is written with a leading '-' exactly when it is negative, and otherwise with digits only. |
| `Java.IntToDecimalRoundTrip` | nuxeo-fujixerox-plugin/src/main/java/org/nuxeo/fujixerox/storedpicturerendition/StoredPictureRenditionBuilder.java:241 | The digits of an int's text read back as the int. For a negative int they are the text after the '-' and read back as its magnitude. |
| `Java.DecimalRoundTrip` | nuxeo-fujixerox-plugin/src/main/java/org/nuxeo/fujixerox/ValidatePictureMetadata.java:60 | The decimal text of a count reads back as that count. |
| `Java.RemoveChar` | nuxeo-fujixerox-plugin/src/main/java/org/nuxeo/fujixerox/ValidatePictureMetadata.java:66 | Removing a character leaves no occurrence of it, adds no character and never lengthens the text. |
| `Java.StripBrackets` | nuxeo-fujixerox-plugin/src/main/java/org/nuxeo/fujixerox/ValidatePictureMetadata.java:66 | Removing "[" and then "]" from a list's toString leaves the names joined with ", ", when no name contains a bracket. |
| `Java.PadDecimal` | nuxeo-fujixerox-plugin/src/main/java/org/nuxeo/fujixerox/storedpicturerendition/StoredPictureRenditionBuilder.java:202 | A zero-padded date field is all digits and reads back as its value. It has the pattern's width whenever the value fits in that width. |
| `Java.FormatDate` | nuxeo-fujixerox-plugin/src/main/java/org/nuxeo/fujixerox/storedpicturerendition/StoredPictureRenditionBuilder.java:202 | For a four-digit year, the "yyyy-MM-dd" text has ten characters and dashes at positions 4 and 7. Its year, month and day fields read back as the date's own. |
| `Java.NullToString` | nuxeo-fujixerox-plugin/src/main/java/org/nuxeo/fujixerox/storedpicturerendition/StoredPictureRenditionBuilder.java:250-251 | Concatenating a null filename writes "null", and concatenating any other filename writes the filename itself. |
| `Java.JoinAppend` | nuxeo-fujixerox-plugin/src/main/java/org/nuxeo/fujixerox/ValidatePictureMetadata.java:66 | A one-element list joins to its element. Appending an element to a non-empty list appends the separator and then that element to the joined text. |
| `ValidatePictureMetadataOp.ContentValue` | nuxeo-fujixerox-plugin/src/main/java/org/nuxeo/fujixerox/ValidatePictureMetadataOp.java:95-101 | Without the "file" schema the caught property error reads as a null blob. With the schema, the result is file:content. |
| `ValidatePictureMetadataOp.Run` | nuxeo-fujixerox-plugin/src/main/java/org/nuxeo/fujixerox/ValidatePictureMetadataOp.java:77-150 | The checks run in order: immutable, then no "picture" schema, then no "image_metadata" schema, then no binary, each with its own error. A reader failure propagates with its message, which may be null. The operation succeeds, returning the input document, exactly when the validator's message is empty. Otherwise it fails with exactly that message. |
| `ValidatePictureMetadataOp.OpError.Message` | nuxeo-fujixerox-plugin/src/main/java/org/nuxeo/fujixerox/ValidatePictureMetadataOp.java:82-103 | Each sanity check raises its own fixed text. A reader failure keeps the reader's message, null included, and missing metadata carries the validator's message. |
| `ValidatePictureMetadataListener.AcceptsDocument` | nuxeo-fujixerox-plugin/src/main/java/org/nuxeo/fujixerox/ValidatePictureMetadataListener.java:42-45 | Only a document event context is looked at, and then only when its document is mutable and of type "Picture". |
| `ValidatePictureMetadataListener.ChecksBinary` | nuxeo-fujixerox-plugin/src/main/java/org/nuxeo/fujixerox/ValidatePictureMetadataListener.java:53-54 | Creation always checks the binary, and an update checks it exactly when it is dirty. No other event checks it. |
| `ValidatePictureMetadataListener.RollbackVerdict` | nuxeo-fujixerox-plugin/src/main/java/org/nuxeo/fujixerox/ValidatePictureMetadataListener.java:49-66 | An event that does not check the binary, or a null binary, gives no rollback. Otherwise a null validator message is dereferenced, an empty one gives no rollback, and any other one is the rollback's message. |
| `ValidatePictureMetadataListener.HandleEvent` | nuxeo-fujixerox-plugin/src/main/java/org/nuxeo/fujixerox/ValidatePictureMetadataListener.java:40-70 | Only a mutable "Picture" in a document context is looked at. Without file:content the lookup fails, and a null validator message fails at `isEmpty`. Otherwise at most one rollback is marked, and it carries exactly the verdict's message. |
| `StoredPictureRenditionBuilder.Extension` | nuxeo-fujixerox-plugin/src/main/java/org/nuxeo/fujixerox/storedpicturerendition/StoredPictureRenditionBuilder.java:175-216 | jpeg200x200 and jpegWatermarked map to ".jpeg" and imageAsPDF maps to ".pdf". Every other name has no extension. |
| `StoredPictureRenditionBuilder.BuildError.Message` | nuxeo-fujixerox-plugin/src/main/java/org/nuxeo/fujixerox/storedpicturerendition/StoredPictureRenditionBuilder.java:214-241 | An unknown rendition gives "Rendition <name> not handled in the code.". An executor error gives "Failed to execute the command <name>". An unsuccessful run gives that text followed by the final command line and the return code. A CommandNotAvailable keeps its own message, and a null dereference has none. |
| `StoredPictureRenditionBuilder.UnsuccessfulMessageReportsCode` | nuxeo-fujixerox-plugin/src/main/java/org/nuxeo/fujixerox/storedpicturerendition/StoredPictureRenditionBuilder.java:236-241 | The message of an unsuccessful run ends with the return code. Its digits read back as the code; for a negative code they follow a '-' and read back as its magnitude. |
| `StoredPictureRenditionBuilder.WatermarkTextShape` | nuxeo-fujixerox-plugin/src/main/java/org/nuxeo/fujixerox/storedpicturerendition/StoredPictureRenditionBuilder.java:198-202 | The watermark text is "Created " and then yyyy-MM-dd. Its fields read back as the creation date. |
| `StoredPictureRenditionBuilder.WatermarkParameters` | nuxeo-fujixerox-plugin/src/main/java/org/nuxeo/fujixerox/storedpicturerendition/StoredPictureRenditionBuilder.java:190-202 | The watermark sets exactly the nine non-path parameters, each to its fixed value or to the creation-date text. |
| `StoredPictureRenditionBuilder.CommandParameters` | nuxeo-fujixerox-plugin/src/main/java/org/nuxeo/fujixerox/storedpicturerendition/StoredPictureRenditionBuilder.java:169-223 | Every command gets sourceFilePath and targetFilePath with the given paths. Only jpegWatermarked gets any other parameter, and then it gets all the watermark settings. |
| `StoredPictureRenditionBuilder.NewView` | nuxeo-fujixerox-plugin/src/main/java/org/nuxeo/fujixerox/storedpicturerendition/StoredPictureRenditionBuilder.java:300-328 | Title and tag are the rendition name, content is the blob and filename is the blob's filename. Description is "Pre-built Rendition for " and then the name. Width and height come from the image info, or stay 0 when that service fails. |
| `StoredPictureRenditionBuilder.MainBlob` | nuxeo-fujixerox-plugin/src/main/java/org/nuxeo/fujixerox/storedpicturerendition/StoredPictureRenditionBuilder.java:166 | Taken to be the BlobHolder adapter's blob: file:content, and null without the "file" schema. |
| `StoredPictureRenditionBuilder.RenditionStep` | nuxeo-fujixerox-plugin/src/main/java/org/nuxeo/fujixerox/storedpicturerendition/StoredPictureRenditionBuilder.java:161-266 | A definition is skipped exactly when its command line is unavailable. Otherwise its command runs. |
| `StoredPictureRenditionBuilder.CommandStep` | nuxeo-fujixerox-plugin/src/main/java/org/nuxeo/fujixerox/storedpicturerendition/StoredPictureRenditionBuilder.java:163-257 | The step never skips. No main blob gives a null-reference failure, and an unknown name gives "not handled". An added view needs the main blob, the views adapter and a known extension. It is titled, tagged and described after the name, holds a blob of the definition's content type, and is named after the main blob's filename with the extension. |
| `StoredPictureRenditionBuilder.CommandStepRunsTheCommand` | nuxeo-fujixerox-plugin/src/main/java/org/nuxeo/fujixerox/storedpicturerendition/StoredPictureRenditionBuilder.java:163-253 | For a known rendition with a main blob, a watermark without dc:created is a null-reference failure. Otherwise the command runs with the main blob's path, a temporary target with the rendition's extension and, for the watermark, the creation date. A thrown CommandNotAvailable, an executor error and an unsuccessful run each give their own failure. A successful run appends the view of a blob at the target path, named after the main blob with the extension and of the definition's content type. Without the views adapter it fails on a null reference instead. |
| `StoredPictureRenditionBuilder.DistinctRenditionsGetDistinctFiles` | nuxeo-fujixerox-plugin/src/main/java/org/nuxeo/fujixerox/storedpicturerendition/StoredPictureRenditionBuilder.java:218-219 | When temporary files are fresh, two different renditions of a document hold blobs at different locations, even when they share an extension. |
| `StoredPictureRenditionBuilder.Renditions` | nuxeo-fujixerox-plugin/src/main/java/org/nuxeo/fujixerox/storedpicturerendition/StoredPictureRenditionBuilder.java:156-267 | The loop consults at most all definitions, and all of them unless one failed. It appends at most one view per definition consulted. |
| `StoredPictureRenditionBuilder.FailureIsFinal` | nuxeo-fujixerox-plugin/src/main/java/org/nuxeo/fujixerox/storedpicturerendition/StoredPictureRenditionBuilder.java:229-242 | After the first failure, later definitions change nothing. |
| `StoredPictureRenditionBuilder.FailureStopsAtItsDefinition` | nuxeo-fujixerox-plugin/src/main/java/org/nuxeo/fujixerox/storedpicturerendition/StoredPictureRenditionBuilder.java:229-253 | A failed loop stopped at the last definition it consulted, whose step failed with the loop's error. The views appended before it are kept. |
| `StoredPictureRenditionBuilder.UnavailableDefinitionsAreSkipped` | nuxeo-fujixerox-plugin/src/main/java/org/nuxeo/fujixerox/storedpicturerendition/StoredPictureRenditionBuilder.java:260-266 | Definitions whose command line is unavailable append nothing and raise nothing, whatever their name. |
| `StoredPictureRenditionBuilder.AddedViewsDescribeDefinitions` | nuxeo-fujixerox-plugin/src/main/java/org/nuxeo/fujixerox/storedpicturerendition/StoredPictureRenditionBuilder.java:244-253 | Every appended view is named after an available definition with a known extension, and carries that definition's content type. It is described after the definition and its filename is the main blob's filename followed by the extension. |
| `StoredPictureRenditionBuilder.CompletedRunAddsOneViewPerAvailableDefinition` | nuxeo-fujixerox-plugin/src/main/java/org/nuxeo/fujixerox/storedpicturerendition/StoredPictureRenditionBuilder.java:156-267 | A loop that completes appends exactly one view per available definition, in the order of the definitions. |
| `StoredPictureRenditionBuilder.CommandAvailabilityCache.constructor` | nuxeo-fujixerox-plugin/src/main/java/org/nuxeo/fujixerox/storedpicturerendition/StoredPictureRenditionBuilder.java:94 | The cache starts empty and consistent with the executor. |
| `StoredPictureRenditionBuilder.CommandAvailabilityCache.IsCommandLineAvailable` | nuxeo-fujixerox-plugin/src/main/java/org/nuxeo/fujixerox/storedpicturerendition/StoredPictureRenditionBuilder.java:103-118 | The answer is the executor's. A hit leaves the cache alone and does not query the executor. A miss queries it once and records the answer. Entries are only ever added. |
| `StoredPictureRenditionBuilder.StoredPictureRenditionBuilder.constructor` | nuxeo-fujixerox-plugin/src/main/java/org/nuxeo/fujixerox/storedpicturerendition/StoredPictureRenditionBuilder.java:98-101 | The builder works on the given document. |
| `StoredPictureRenditionBuilder.StoredPictureRenditionBuilder.AddBlobToViews` | nuxeo-fujixerox-plugin/src/main/java/org/nuxeo/fujixerox/storedpicturerendition/StoredPictureRenditionBuilder.java:300-333 | The new view is appended to the views, or nothing changes when the views adapter is missing. |
| `StoredPictureRenditionBuilder.StoredPictureRenditionBuilder.BuildRendition` | nuxeo-fujixerox-plugin/src/main/java/org/nuxeo/fujixerox/storedpicturerendition/StoredPictureRenditionBuilder.java:163-257 | The switch, command run and blob set-up fail or append exactly as `CommandStep` says, that is, as `CommandStepRunsTheCommand` spells out for each outcome of the run. |
| `StoredPictureRenditionBuilder.StoredPictureRenditionBuilder.BuildNext` | nuxeo-fujixerox-plugin/src/main/java/org/nuxeo/fujixerox/storedpicturerendition/StoredPictureRenditionBuilder.java:159-266 | One pass asks the cache, and then skips or builds as `RenditionStep` says. The definition's name ends up cached. |
| `StoredPictureRenditionBuilder.StoredPictureRenditionBuilder.BuildAvailableRenditions` | nuxeo-fujixerox-plugin/src/main/java/org/nuxeo/fujixerox/storedpicturerendition/StoredPictureRenditionBuilder.java:147-267 | The loop ends with the error and the appended views that `Renditions` gives for all the definitions. Views appended before a failure stay. The cache's keys afterwards are exactly the keys it had plus the names of the definitions the loop consulted. |
| `StoredPictureRenditionBuilder.StoredPictureRenditionBuilder.BuildAt` | nuxeo-fujixerox-plugin/src/main/java/org/nuxeo/fujixerox/storedpicturerendition/StoredPictureRenditionBuilder.java:156-266 | One turn of the loop, after a prefix without failure, moves the run, the views and the cache's keys on by exactly one definition. |
| `StoredPictureRenditionBuilder.CommandNamesAreTheDefinitions` | nuxeo-fujixerox-plugin/src/main/java/org/nuxeo/fujixerox/storedpicturerendition/StoredPictureRenditionBuilder.java:156-162 | A name is among the first `k` command names exactly when one of the first `k` definitions carries it. |
| `StoredPictureRenditionProvider.FindView` | nuxeo-fujixerox-plugin/src/main/java/org/nuxeo/fujixerox/storedpicturerendition/StoredPictureRenditionProvider.java:62-66 | The lookup finds nothing exactly when no view has the title. Otherwise it returns the first view with that title. |
| `StoredPictureRenditionProvider.FindViewInAppended` | nuxeo-fujixerox-plugin/src/main/java/org/nuxeo/fujixerox/storedpicturerendition/StoredPictureRenditionProvider.java:78-83 | Looking a title up after views were appended finds the earlier view if there was one, and otherwise looks among the appended ones. |
| `StoredPictureRenditionProvider.IsAvailable` | nuxeo-fujixerox-plugin/src/main/java/org/nuxeo/fujixerox/storedpicturerendition/StoredPictureRenditionProvider.java:53-67 | False for any type other than "Picture". For a Picture, true exactly when the views adapter exists and a view carries the definition's name. |
| `StoredPictureRenditionProvider.Render` | nuxeo-fujixerox-plugin/src/main/java/org/nuxeo/fujixerox/storedpicturerendition/StoredPictureRenditionProvider.java:73-87 | At most one blob. There is one exactly when the adapter exists and a view has the name, and it is that view's blob. |
| `StoredPictureRenditionProvider.AvailableIffRendered` | nuxeo-fujixerox-plugin/src/main/java/org/nuxeo/fujixerox/storedpicturerendition/StoredPictureRenditionProvider.java:53-87 | On a Picture, a rendition is reported available exactly when render returns one blob for it. |
| `StoredPictureRenditionProvider.BuiltRenditionsAreServed` | nuxeo-fujixerox-plugin/src/main/java/org/nuxeo/fujixerox/storedpicturerendition/StoredPictureRenditionProvider.java:78-86 | After a completed build, every available definition has a view under its name. If there was none before, the view served carries that definition's content type. |
| `PictureViewsGenerationDoneListener.Escaping` | nuxeo-fujixerox-plugin/src/main/java/org/nuxeo/fujixerox/PictureViewsGenerationDoneListener.java:116-120 | A CommandNotAvailable is wrapped in an error naming the document. Every other builder error escapes as it is. |
| `PictureViewsGenerationDoneListener.ListenerFailure.Message` | nuxeo-fujixerox-plugin/src/main/java/org/nuxeo/fujixerox/PictureViewsGenerationDoneListener.java:116-120 | A wrapped CommandNotAvailable reads "Failed to pre-build the renditions for document " followed by the document's id. Any other builder error escapes with its own message. |
| `PictureViewsGenerationDoneListener.Builds` | nuxeo-fujixerox-plugin/src/main/java/org/nuxeo/fujixerox/PictureViewsGenerationDoneListener.java:65-86 | An event with another name, or with a context other than a document context, is skipped. Otherwise the event builds exactly when its document is mutable. |
| `PictureViewsGenerationDoneListener.Handled` | nuxeo-fujixerox-plugin/src/main/java/org/nuxeo/fujixerox/PictureViewsGenerationDoneListener.java:63-121 | The bundle loop saves at most one document per event it looks at. It looks at every event unless one failed. |
| `PictureViewsGenerationDoneListener.AddedViewsComeFromBuilds` | nuxeo-fujixerox-plugin/src/main/java/org/nuxeo/fujixerox/PictureViewsGenerationDoneListener.java:95-99 | A document gets views only from events that build on it, and every view it gets is from its own build. |
| `PictureViewsGenerationDoneListener.FirstFailureEndsTheBundle` | nuxeo-fujixerox-plugin/src/main/java/org/nuxeo/fujixerox/PictureViewsGenerationDoneListener.java:116-120 | After the first failure, later events change nothing. |
| `PictureViewsGenerationDoneListener.FailureStopsAtItsEvent` | nuxeo-fujixerox-plugin/src/main/java/org/nuxeo/fujixerox/PictureViewsGenerationDoneListener.java:95-120 | A failed loop stopped at the last event it looked at. That event passed the guards, nothing failed before it, and its build failed with the error that escapes. |
| `PictureViewsGenerationDoneListener.SavedDocumentsWereBuilt` | nuxeo-fujixerox-plugin/src/main/java/org/nuxeo/fujixerox/PictureViewsGenerationDoneListener.java:97-109 | Only documents whose build completed are saved, and each comes from an event that passed the guards. |
| `PictureViewsGenerationDoneListener.IgnoredEventsChangeNothing` | nuxeo-fujixerox-plugin/src/main/java/org/nuxeo/fujixerox/PictureViewsGenerationDoneListener.java:65-86 | Events with another name, another context or an immutable document save nothing, fail nothing and append no view. |
| `PictureViewsGenerationDoneListener.BuildAndSave` | nuxeo-fujixerox-plugin/src/main/java/org/nuxeo/fujixerox/PictureViewsGenerationDoneListener.java:95-120 | The builder's views are appended. The document is saved exactly when the build completes; otherwise the escaping error is returned. The cache gains exactly the names of the definitions the build consulted. |
| `PictureViewsGenerationDoneListener.HandleEvent` | nuxeo-fujixerox-plugin/src/main/java/org/nuxeo/fujixerox/PictureViewsGenerationDoneListener.java:62-122 | The error, the saved documents and every document's views are those `Handled` and `AddedTo` give for the bundle, so nothing happens after the first failure. The cache's keys afterwards are its old keys plus exactly the names `LookedUp` gives for the events looked at. |
| `PictureViewsGenerationDoneListener.HandleAt` | nuxeo-fujixerox-plugin/src/main/java/org/nuxeo/fujixerox/PictureViewsGenerationDoneListener.java:63-121 | One turn of the bundle loop, after events without failure, moves the outcome, every document's views and the cache's keys on by exactly one event. |
| `PictureViewsGenerationDoneListener.LookedUpByAnEvent` | nuxeo-fujixerox-plugin/src/main/java/org/nuxeo/fujixerox/PictureViewsGenerationDoneListener.java:95-99 | A name is looked up by the first `k` events exactly when one of them passes the guards and its document's build consults a definition with that name. |

## Left out

- Metadata reading and DPI conversion (`ImageMetadataReader`, `XYResolutionDPI`) belong to an external library. The model takes the X and Y DPI and the colorspace as inputs, or a reader failure with its message, which may be null.
- `ValidatePictureMetadata.ValidationMessage`: the result is the empty text exactly when all fields are present only if the reader, when it fails, gives a non-empty message. The contract states this exception, because a Java exception may carry an empty or a null message.
- A document event context always carries a document. A null `getSourceDocument()` would throw a null-pointer exception in both listeners (`ValidatePictureMetadataListener.java` lines 44-45, `PictureViewsGenerationDoneListener.java` lines 80-82); this is not modelled.
- The message of a `CommandNotAvailable` thrown by the executor is taken as a non-null text.
- A null colorspace entry in the reader's result would throw a null-pointer exception; the model's colorspace is never null.
- `StoredPictureRenditionBuilder.MainBlob`: the BlobHolder adapter's blob is taken to be `file:content`, and null without the "file" schema. A null adapter, which would throw at `StoredPictureRenditionBuilder.java` line 166, and any other blob the host's adapter might return are not modelled.
- `StoredPictureRenditionBuilder.CommandStep`: the target path is an oracle keyed on the document id, the rendition name and the extension. That different keys give different files is the assumption `FreshTempFiles`, which `DistinctRenditionsGetDistinctFiles` uses. The model does not state it for every environment, and the loop's own lemmas do not need it.
- `getFilePath` and temporary-file creation are not modelled: the file I/O, `transferTo`, `deleteOnExit` and `trackFile`. The source path and target path are oracles in `Environment`, so the `IOException` they can throw is not modelled either.
- `execCommand` and `ImagingService.getImageInfo` are oracles. Their `CommandException` paths are not modelled.
- `SimpleDateFormat` time zones and `Calendar` are left out. The creation date is a (year, month, day) triple.
- `MultiviewPicture.getView` on duplicate titles: the model returns the first matching view. Whether `addView` overwrites an existing title is not modelled; views are an appended sequence.
- The definitions come from the rendition service in an order the model takes as given.
- `PictureChangedListenerCustom.java` is not part of this model. It is a thin override that delegates to a superclass.
- Host behaviour is not modelled: transaction rollback, post-commit delivery, persistence on save and logging. `doc.getCoreSession()` is one session parameter shared by all documents.
- `StoredPictureRenditionBuilder.CommandAvailabilityCache.IsCommandLineAvailable`: the executor's availability report is a fixed function of the command name (`service`), so every cached entry equals the current report. A command whose availability changes after it was cached, which would leave a stale entry in the process-wide map (`StoredPictureRenditionBuilder.java` lines 94 and 105-117), is not modelled.
- `StoredPictureRenditionBuilder.CommandAvailabilityCache.IsCommandLineAvailable`: the cache is modelled sequentially, so races between threads are not captured. The "queried at most once per name" property is stated per call (a hit adds no query), not as an invariant over the whole query history.
- The commented-out alternative approach in `StoredPictureRenditionBuilder.java` (lines 269-291) is not modelled.
- `ValidatePictureMetadata.TwoResolutionsMissing`: the expected text is written in four literal pieces joined with `+`; together they spell the test's string.
