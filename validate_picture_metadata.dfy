/** The metadata validator: given what the metadata reader reports for a
    blob, the list of missing required fields and the English message the
    plugin shows for them (empty when nothing is missing). */
module ValidatePictureMetadata {
  import opened Java
  import opened DocumentModel

  /** What the reader and the DPI conversion give for a blob. */
  datatype Metadata = Metadata(xDpi: int, yDpi: int, colorspace: string)

  /** The reader either delivers the metadata or fails with an I/O or
      parse error; the error's message may be null. */
  datatype MetadataReading = Read(metadata: Metadata) | ReadFailed(message: Option<string>)

  /** The required fields; `Name` is the text the validator reports. */
  datatype Field = XResolution | YResolution | Colorspace
  {
    function Name(): string {
      match this
      case XResolution => "X-Resolution"
      case YResolution => "Y-Resolution"
      case Colorspace => "Colorspace"
    }

    /** The position of the field in the reporting order. */
    function Rank(): nat {
      match this
      case XResolution => 0
      case YResolution => 1
      case Colorspace => 2
    }
  }

  /** The required fields, in the order the validator checks them. */
  const RequiredFields: seq<Field> := [XResolution, YResolution, Colorspace]

  /** A zero DPI on an axis, or an empty colorspace, counts as missing. */
  predicate IsMissing(m: Metadata, field: Field) {
    match field
    case XResolution => m.xDpi == 0
    case YResolution => m.yDpi == 0
    case Colorspace => m.colorspace == ""
  }

  /** The fields of `fields` that `m` lacks, keeping their order. */
  function MissingAmong(m: Metadata, fields: seq<Field>): (r: seq<Field>)
    ensures |r| <= |fields|
    ensures forall f :: f in r <==> f in fields && IsMissing(m, f)
  {
    if fields == [] then []
    else (if IsMissing(m, fields[0]) then [fields[0]] else []) + MissingAmong(m, fields[1..])
  }

  /** The missing fields of `m`: exactly the missing ones, each once, in the
      order X-Resolution, Y-Resolution, Colorspace. */
  function MissingFields(m: Metadata): (r: seq<Field>)
    ensures |r| <= 3
    ensures XResolution in r <==> m.xDpi == 0
    ensures YResolution in r <==> m.yDpi == 0
    ensures Colorspace in r <==> m.colorspace == ""
    ensures forall i, j :: 0 <= i < j < |r| ==> r[i].Rank() < r[j].Rank()
  {
    MissingFieldsInOrder(m);
    MissingAmong(m, RequiredFields)
  }

  lemma MissingFieldsInOrder(m: Metadata)
    ensures MissingAmong(m, RequiredFields)
         == (if m.xDpi == 0 then [XResolution] else [])
          + (if m.yDpi == 0 then [YResolution] else [])
          + (if m.colorspace == "" then [Colorspace] else [])
  {
    var fs := RequiredFields;
    var x := if m.xDpi == 0 then [XResolution] else [];
    var y := if m.yDpi == 0 then [YResolution] else [];
    var c := if m.colorspace == "" then [Colorspace] else [];
    assert fs[1..] == [YResolution, Colorspace];
    assert fs[1..][1..] == [Colorspace];
    assert fs[1..][1..][1..] == [];
    assert MissingAmong(m, fs[1..][1..]) == c + MissingAmong(m, []);
    assert MissingAmong(m, fs[1..]) == y + MissingAmong(m, fs[1..][1..]);
    assert MissingAmong(m, fs) == x + MissingAmong(m, fs[1..]);
  }

  /** The names the validator appends to its error list. */
  function Names(fields: seq<Field>): (names: seq<string>)
    ensures |names| == |fields|
    ensures forall i :: 0 <= i < |fields| ==> names[i] == fields[i].Name()
  {
    seq(|fields|, i requires 0 <= i < |fields| => fields[i].Name())
  }

  const SeveralMissingPrefix: string := " missing values in its metadata: "
  const OneMissingPrefix: string := "This image has a missing value in its metadata: "

  /** The message for a list of missing fields, built as the source builds
      it: a count-dependent lead, then the list's toString with its
      brackets removed. Empty when the list is empty. */
  function MissingValuesMessage(fields: seq<Field>): (msg: string)
    ensures msg == "" <==> fields == []
  {
    if |fields| == 0 then ""
    else
      var lead := if |fields| > 1
        then "This image has " + IntToDecimal(|fields|) + SeveralMissingPrefix
        else OneMissingPrefix;
      lead + RemoveChar(RemoveChar(ListToString(Names(fields)), '['), ']')
  }

  /** What the validator returns for a reading: the reader's failure text,
      which may be null, or the missing-fields message. */
  function ValidationMessage(reading: MetadataReading): (msg: Option<string>)
    ensures reading.ReadFailed? ==> msg == reading.message
    ensures msg.None? ==> reading.ReadFailed?
    ensures msg == Some("") <==>
      || (reading.ReadFailed? && reading.message == Some(""))
      || (reading.Read? && reading.metadata.xDpi != 0 && reading.metadata.yDpi != 0
          && reading.metadata.colorspace != "")
  {
    match reading
    case ReadFailed(message) => message
    case Read(m) =>
      var fields := MissingFields(m);
      assert fields != [] ==> fields[0] in fields;
      Some(MissingValuesMessage(fields))
  }

  /** The names in the message are joined with ", " and carry no bracket;
      with several names the lead states their count, with one it uses the
      singular form. */
  lemma MessageFormat(m: Metadata)
    ensures var fields := MissingFields(m);
      var msg := ValidationMessage(Read(m)).value;
      && (|fields| > 1 ==>
            msg == "This image has " + IntToDecimal(|fields|) + SeveralMissingPrefix + Join(Names(fields), ", "))
      && (|fields| == 1 ==> msg == OneMissingPrefix + fields[0].Name())
      && (|fields| == 0 ==> msg == "")
  {
    var names := Names(MissingFields(m));
    forall i | 0 <= i < |names|
      ensures '[' !in names[i] && ']' !in names[i]
    {
      NameWithoutBrackets(MissingFields(m)[i]);
    }
    StripBrackets(names);
  }

  lemma NameWithoutBrackets(f: Field)
    ensures '[' !in f.Name() && ']' !in f.Name()
  {
  }

  /** The message pinned by the integration test: both resolutions zero, a
      colorspace present. The expected text is written in four literal
      pieces; together they read "This image has 2 missing values in its
      metadata: X-Resolution, Y-Resolution". */
  lemma TwoResolutionsMissing(colorspace: string)
    requires colorspace != ""
    ensures ValidationMessage(Read(Metadata(0, 0, colorspace))).value
         == "This image has " + "2" + " missing values in its metadata: " + "X-Resolution, Y-Resolution"
  {
    var m := Metadata(0, 0, colorspace);
    TwoMissing(colorspace);
    MessageFormat(m);
    TwoNamesJoined();
    assert DigitChar(2) == '2';
    assert IntToDecimal(2) == "2";
  }

  lemma TwoMissing(colorspace: string)
    requires colorspace != ""
    ensures MissingFields(Metadata(0, 0, colorspace)) == [XResolution, YResolution]
  {
    MissingFieldsInOrder(Metadata(0, 0, colorspace));
  }

  lemma TwoNamesJoined()
    ensures Join(Names([XResolution, YResolution]), ", ") == "X-Resolution, Y-Resolution"
  {
    var names := Names([XResolution, YResolution]);
    assert names == ["X-Resolution"] + ["Y-Resolution"];
    JoinAppend(["X-Resolution"], "Y-Resolution", ", ");
  }

  /** The field checks and message formatting shared by the validator and
      the validation operation: an `errors` list appended to check by
      check, then the message built from it. */
  method MissingValuesCheck(m: Metadata) returns (errorMsg: string)
    ensures Some(errorMsg) == ValidationMessage(Read(m))
  {
    var errors: seq<Field> := [];
    if m.xDpi == 0 {
      errors := errors + [XResolution];
    }
    if m.yDpi == 0 {
      errors := errors + [YResolution];
    }
    if m.colorspace == "" {
      errors := errors + [Colorspace];
    }
    MissingFieldsInOrder(m);
    assert errors == MissingAmong(m, RequiredFields);
    errorMsg := "";
    var count := |errors|;
    if count > 0 {
      if count > 1 {
        errorMsg := "This image has " + IntToDecimal(count) + SeveralMissingPrefix;
      } else {
        errorMsg := OneMissingPrefix;
      }
      errorMsg := errorMsg + RemoveChar(RemoveChar(ListToString(Names(errors)), '['), ']');
    }
  }

  /** `validate(blob)`: read the metadata with `reader`; a reader failure
      is caught and its message, possibly null, returned instead of any
      field check. */
  method Validate(inBlob: Blob, reader: Blob -> MetadataReading) returns (errorMsg: Option<string>)
    ensures errorMsg == ValidationMessage(reader(inBlob))
  {
    errorMsg := Some("");
    var reading := reader(inBlob);
    match reading
    case ReadFailed(message) =>
      errorMsg := message;
    case Read(m) =>
      var checked := MissingValuesCheck(m);
      errorMsg := Some(checked);
  }
}
