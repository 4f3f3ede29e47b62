/**
 * The two actions of the asset resizer, as functions of the inputs they read
 * when they fire: the current directory, the selected asset names, what the
 * width and height fields parse to, the user's choice of a destination
 * (save-as only) and the platform oracle. Each returns the outcome the user is
 * told about and the file accesses it made, in order.
 */
module ResizeActions {
  import opened Wrappers
  import opened AssetNames
  import opened Platform

  /** A value Integer.parseInt can return; a field that does not parse is None. */
  type Int32 = x: int | -0x8000_0000 <= x < 0x8000_0000

  /** The validation errors of the dimension fields. */
  datatype DimensionError =
    | InvalidInput        // a field is not a number (NumberFormatException)
    | InvalidDimensions   // a parsed width or height is not positive

  /** An action's answer together with the file accesses it made. */
  datatype Handled<R> = Handled(response: R, events: seq<IoEvent>)

  datatype MessageKind = Information | Warning | Error

  /** A modal message dialog: title, text and kind. */
  datatype Dialog = Dialog(title: string, message: string, kind: MessageKind)

  /**
   * The dimension guard both actions apply before touching any file: both
   * fields must parse, then both values must be positive.
   */
  function ParseDimensions(width: Option<Int32>, height: Option<Int32>): (r: Result<(int, int), DimensionError>)
    ensures r.Success? <==> width.Some? && height.Some? && width.value > 0 && height.value > 0
    ensures r.Success? ==> r.value == (width.value as int, height.value as int)
    ensures r == Failure(InvalidInput) <==> width.None? || height.None?
  {
    if width.None? || height.None? then Failure(InvalidInput)
    else if width.value <= 0 || height.value <= 0 then Failure(InvalidDimensions)
    else Success((width.value as int, height.value as int))
  }

  /** The dialog a rejected dimension field produces. */
  function DimensionDialog(e: DimensionError): (d: Dialog)
    ensures d.kind == Error
    ensures d.title == "Invalid Input" <==> e == InvalidInput
    ensures e == InvalidInput ==> d.message == "Please enter valid numbers for width and height."
    ensures e == InvalidDimensions ==> d == Dialog("Invalid Dimensions", "Width and height must be positive numbers.", Error)
  {
    match e
    case InvalidInput => Dialog("Invalid Input", "Please enter valid numbers for width and height.", Error)
    case InvalidDimensions => Dialog("Invalid Dimensions", "Width and height must be positive numbers.", Error)
  }

  /**
   * The canvas a decoded image is drawn into: exactly the requested size, and
   * the source's pixel type unless that is TYPE_CUSTOM, which cannot be
   * allocated and falls back to TYPE_INT_ARGB.
   */
  function ResizedImage(source: Image, width: int, height: int): (r: Image)
    ensures r.width == width && r.height == height
    ensures r.imageType != TypeCustom
    ensures source.imageType != TypeCustom ==> r.imageType == source.imageType
    ensures source.imageType == TypeCustom ==> r.imageType == TypeIntArgb
  {
    Image(width, height, if source.imageType == TypeCustom then TypeIntArgb else source.imageType)
  }

  const NotValidImageReason := " (not a valid image)"
  const WriteFailedReason := " (write failed)"
  const IoErrorReason := " (IO Error)"

  /** The three failure entries an asset can produce in a batch. */
  function FailureEntries(name: string): set<string> {
    {name + NotValidImageReason, name + WriteFailedReason, name + IoErrorReason}
  }

  /** What one asset of a batch contributes: its failure entry, if any, and its file accesses. */
  datatype AssetStep = AssetStep(failure: Option<string>, events: seq<IoEvent>)

  /**
   * One asset of a resize batch: read it from the current directory; on a
   * decoded image, draw it into the resized canvas and write it back over the
   * same file in the format named by the asset's suffix.
   */
  function ResizeAsset(disk: Disk, dir: FileRef, name: string, width: int, height: int): (step: AssetStep)
    ensures 1 <= |step.events| <= 2 && step.events[0] == ReadFile(Child(dir, name))
    ensures step.failure.Some? ==> step.failure.value in FailureEntries(name)
    ensures |step.events| == 2 <==> disk.read(Child(dir, name)).Decoded?
    ensures |step.events| == 2 ==>
      step.events[1] == WriteFile(ResizedImage(disk.read(Child(dir, name)).image, width, height), FormatName(name), Child(dir, name))
    ensures step.failure.None? <==>
      disk.read(Child(dir, name)).Decoded? && disk.write(step.events[1].image, step.events[1].format, Child(dir, name)).Written?
    ensures disk.read(Child(dir, name)).NoDecoder? ==> step.failure == Some(name + NotValidImageReason)
    ensures disk.read(Child(dir, name)).ReadError? ==> step.failure == Some(name + IoErrorReason)
    ensures |step.events| == 2 && disk.write(step.events[1].image, step.events[1].format, Child(dir, name)).NoWriter? ==>
      step.failure == Some(name + WriteFailedReason)
    ensures |step.events| == 2 && disk.write(step.events[1].image, step.events[1].format, Child(dir, name)).WriteError? ==>
      step.failure == Some(name + IoErrorReason)
  {
    var assetFile := Child(dir, name);
    match disk.read(assetFile)
    case NoDecoder => AssetStep(Some(name + NotValidImageReason), [ReadFile(assetFile)])
    case ReadError(_) => AssetStep(Some(name + IoErrorReason), [ReadFile(assetFile)])
    case Decoded(original) =>
      var resized := ResizedImage(original, width, height);
      var formatName := FormatName(name);
      var accesses := [ReadFile(assetFile), WriteFile(resized, formatName, assetFile)];
      match disk.write(resized, formatName, assetFile)
      case Written => AssetStep(None, accesses)
      case NoWriter => AssetStep(Some(name + WriteFailedReason), accesses)
      case WriteError(_) => AssetStep(Some(name + IoErrorReason), accesses)
  }

  /** The failure list and the file accesses of a whole batch. */
  datatype BatchResult = BatchResult(failedFiles: seq<string>, events: seq<IoEvent>)

  /**
   * A resize batch over the selected names, one asset after another; a failing
   * asset adds its entry and the batch goes on with the next one.
   */
  function Batch(disk: Disk, dir: FileRef, names: seq<string>, width: int, height: int): (b: BatchResult)
    ensures |b.failedFiles| <= |names| <= |b.events| <= 2 * |names|
    ensures forall e :: e in b.events && e.WriteFile? ==>
      e.image.width == width && e.image.height == height && e.image.imageType != TypeCustom
    decreases |names|
  {
    if names == [] then BatchResult([], [])
    else
      var previous := Batch(disk, dir, names[..|names| - 1], width, height);
      var step := ResizeAsset(disk, dir, names[|names| - 1], width, height);
      BatchResult(previous.failedFiles + OptionToSeq(step.failure), previous.events + step.events)
  }

  /** How many of the names fail when resized on their own. */
  function CountFailures(disk: Disk, dir: FileRef, names: seq<string>, width: int, height: int): (c: nat)
    ensures c <= |names|
    decreases |names|
  {
    if names == [] then 0
    else
      CountFailures(disk, dir, names[..|names| - 1], width, height)
      + (if ResizeAsset(disk, dir, names[|names| - 1], width, height).failure.Some? then 1 else 0)
  }

  /** Adding one asset at the end of a selection adds its step at the end of the batch. */
  lemma BatchSnoc(disk: Disk, dir: FileRef, names: seq<string>, name: string, width: int, height: int)
    ensures Batch(disk, dir, names + [name], width, height) ==
      BatchResult(Batch(disk, dir, names, width, height).failedFiles + OptionToSeq(ResizeAsset(disk, dir, name, width, height).failure),
                  Batch(disk, dir, names, width, height).events + ResizeAsset(disk, dir, name, width, height).events)
  {
    assert (names + [name])[..|names|] == names;
  }

  /** The batch over the first i + 1 names extends the batch over the first i by the step of names[i]. */
  lemma BatchPrefixStep(disk: Disk, dir: FileRef, names: seq<string>, i: nat, width: int, height: int)
    requires i < |names|
    ensures Batch(disk, dir, names[..i + 1], width, height) ==
      BatchResult(Batch(disk, dir, names[..i], width, height).failedFiles + OptionToSeq(ResizeAsset(disk, dir, names[i], width, height).failure),
                  Batch(disk, dir, names[..i], width, height).events + ResizeAsset(disk, dir, names[i], width, height).events)
  {
    assert names[..i + 1] == names[..i] + [names[i]];
    BatchSnoc(disk, dir, names[..i], names[i], width, height);
  }

  /** Assets are processed independently: a batch over a + b is the batch over a followed by the batch over b. */
  lemma {:induction false} BatchAppend(disk: Disk, dir: FileRef, a: seq<string>, b: seq<string>, width: int, height: int)
    ensures Batch(disk, dir, a + b, width, height) ==
      BatchResult(Batch(disk, dir, a, width, height).failedFiles + Batch(disk, dir, b, width, height).failedFiles,
                  Batch(disk, dir, a, width, height).events + Batch(disk, dir, b, width, height).events)
    decreases |b|
  {
    if b == [] {
      assert a + b == a;
    } else {
      var init, last := b[..|b| - 1], b[|b| - 1];
      assert b == init + [last];
      assert a + b == (a + init) + [last];
      BatchAppend(disk, dir, a, init, width, height);
      BatchSnoc(disk, dir, a + init, last, width, height);
      BatchSnoc(disk, dir, init, last, width, height);
      var ba, bi := Batch(disk, dir, a, width, height), Batch(disk, dir, init, width, height);
      var step := ResizeAsset(disk, dir, last, width, height);
      ConcatAssociative(ba.failedFiles, bi.failedFiles, OptionToSeq(step.failure));
      ConcatAssociative(ba.events, bi.events, step.events);
    }
  }

  /** The batch over a single asset is that asset's step. */
  lemma BatchSingle(disk: Disk, dir: FileRef, name: string, width: int, height: int)
    ensures Batch(disk, dir, [name], width, height) ==
      BatchResult(OptionToSeq(ResizeAsset(disk, dir, name, width, height).failure), ResizeAsset(disk, dir, name, width, height).events)
  {
    assert [name][..0] == [];
  }

  /** The failure list has exactly one entry per failing asset. */
  lemma {:induction false} FailedFilesCount(disk: Disk, dir: FileRef, names: seq<string>, width: int, height: int)
    ensures |Batch(disk, dir, names, width, height).failedFiles| == CountFailures(disk, dir, names, width, height)
    decreases |names|
  {
    if names != [] {
      FailedFilesCount(disk, dir, names[..|names| - 1], width, height);
    }
  }

  /**
   * A failing asset's entry sits in the failure list after the entries of the
   * failing assets selected before it: the list is in selection order.
   */
  lemma FailedFileInOrder(disk: Disk, dir: FileRef, names: seq<string>, width: int, height: int, i: nat)
    requires i < |names|
    requires ResizeAsset(disk, dir, names[i], width, height).failure.Some?
    ensures CountFailures(disk, dir, names[..i], width, height) < |Batch(disk, dir, names, width, height).failedFiles|
    ensures Batch(disk, dir, names, width, height).failedFiles[CountFailures(disk, dir, names[..i], width, height)]
         == ResizeAsset(disk, dir, names[i], width, height).failure.value
  {
    var before, after := names[..i], names[i + 1..];
    var step := ResizeAsset(disk, dir, names[i], width, height);
    assert names == before + ([names[i]] + after);
    BatchAppend(disk, dir, before, [names[i]] + after, width, height);
    BatchAppend(disk, dir, [names[i]], after, width, height);
    BatchSingle(disk, dir, names[i], width, height);
    FailedFilesCount(disk, dir, before, width, height);
    var failed := Batch(disk, dir, names, width, height).failedFiles;
    var prefix := Batch(disk, dir, before, width, height).failedFiles;
    assert failed == prefix + ([step.failure.value] + Batch(disk, dir, after, width, height).failedFiles);
    assert failed[|prefix|] == step.failure.value;
  }

  /** Every entry of the failure list is the entry of some failing selected asset: successes never appear. */
  lemma {:induction false} FailedFileOrigin(disk: Disk, dir: FileRef, names: seq<string>, width: int, height: int, k: nat)
    requires k < |Batch(disk, dir, names, width, height).failedFiles|
    ensures exists i :: (0 <= i < |names| &&
      ResizeAsset(disk, dir, names[i], width, height).failure == Some(Batch(disk, dir, names, width, height).failedFiles[k]))
    decreases |names|
  {
    var init := names[..|names| - 1];
    var previous := Batch(disk, dir, init, width, height);
    if k < |previous.failedFiles| {
      FailedFileOrigin(disk, dir, init, width, height, k);
      var i :| 0 <= i < |init| && ResizeAsset(disk, dir, init[i], width, height).failure == Some(previous.failedFiles[k]);
      assert init[i] == names[i];
    } else {
      var last := |names| - 1;
      assert ResizeAsset(disk, dir, names[last], width, height).failure == Some(Batch(disk, dir, names, width, height).failedFiles[k]);
    }
  }

  /** The failure list is empty iff every selected asset was read, resized and written. */
  lemma {:induction false} NoFailuresIffAllWritten(disk: Disk, dir: FileRef, names: seq<string>, width: int, height: int)
    ensures Batch(disk, dir, names, width, height).failedFiles == [] <==>
      forall i :: 0 <= i < |names| ==> ResizeAsset(disk, dir, names[i], width, height).failure.None?
    decreases |names|
  {
    if names != [] {
      var init := names[..|names| - 1];
      NoFailuresIffAllWritten(disk, dir, init, width, height);
      assert forall i :: 0 <= i < |init| ==> init[i] == names[i];
    }
  }

  /**
   * A failure does not stop the batch: every selected asset is read, and every
   * one that decodes is written back, resized, in the format of its own suffix.
   */
  lemma EveryAssetAttempted(disk: Disk, dir: FileRef, names: seq<string>, width: int, height: int, i: nat)
    requires i < |names|
    ensures ReadFile(Child(dir, names[i])) in Batch(disk, dir, names, width, height).events
    ensures disk.read(Child(dir, names[i])).Decoded? ==>
      WriteFile(ResizedImage(disk.read(Child(dir, names[i])).image, width, height), FormatName(names[i]), Child(dir, names[i]))
        in Batch(disk, dir, names, width, height).events
  {
    var step := ResizeAsset(disk, dir, names[i], width, height);
    assert names == names[..i] + ([names[i]] + names[i + 1..]);
    BatchAppend(disk, dir, names[..i], [names[i]] + names[i + 1..], width, height);
    BatchAppend(disk, dir, [names[i]], names[i + 1..], width, height);
    BatchSingle(disk, dir, names[i], width, height);
    var events := Batch(disk, dir, names, width, height).events;
    var before := |Batch(disk, dir, names[..i], width, height).events|;
    assert events[before] == step.events[0];
    if disk.read(Child(dir, names[i])).Decoded? {
      assert events[before + 1] == step.events[1];
    }
  }

  /** The outcome of the resize button. */
  datatype ResizeResponse =
    | NothingSelected                    // the listener returns at once
    | Rejected(error: DimensionError)    // one validation dialog
    | Finished(failedFiles: seq<string>) // the batch ran

  /**
   * The resize button: nothing on an empty selection, one validation error on
   * a bad dimension field, otherwise the batch over the selected names.
   */
  function ResizeAction(disk: Disk, dir: FileRef, selected: seq<string>, width: Option<Int32>, height: Option<Int32>)
    : (r: Handled<ResizeResponse>)
    ensures selected == [] ==> r == Handled(NothingSelected, [])
    ensures r.response.Rejected? <==> selected != [] && ParseDimensions(width, height).Failure?
    ensures r.response.Rejected? ==> r.response.error == ParseDimensions(width, height).error
    ensures r.events != [] <==> selected != [] && ParseDimensions(width, height).Success?
    ensures selected != [] && ParseDimensions(width, height).Success? ==>
      var b := Batch(disk, dir, selected, width.value as int, height.value as int);
      r == Handled(Finished(b.failedFiles), b.events)
    ensures r.response.Finished? ==> |r.response.failedFiles| <= |selected|
  {
    if selected == [] then Handled(NothingSelected, [])
    else
      match ParseDimensions(width, height)
      case Failure(e) => Handled(Rejected(e), [])
      case Success(dims) =>
        var b := Batch(disk, dir, selected, dims.0, dims.1);
        Handled(Finished(b.failedFiles), b.events)
  }

  /** The lines of `lines` separated by `separator` (String.join). */
  function Join(separator: string, lines: seq<string>): (r: string)
    ensures lines == [] ==> r == ""
    ensures |lines| == 1 ==> r == lines[0]
    ensures lines != [] ==> |lines[0]| <= |r| && r[..|lines[0]|] == lines[0]
    ensures lines != [] ==> |lines[|lines| - 1]| <= |r| && r[|r| - |lines[|lines| - 1]|..] == lines[|lines| - 1]
    decreases |lines|
  {
    if lines == [] then ""
    else if |lines| == 1 then lines[0]
    else lines[0] + separator + Join(separator, lines[1..])
  }

  /**
   * Joining a + b puts the separator once between the joined a and the joined
   * b; with the one-line case this fixes every line's place in the text.
   */
  lemma {:induction false} JoinAppend(separator: string, a: seq<string>, b: seq<string>)
    requires a != [] && b != []
    ensures Join(separator, a + b) == Join(separator, a) + separator + Join(separator, b)
    decreases |a|
  {
    assert (a + b)[0] == a[0];
    if |a| == 1 {
      assert (a + b)[1..] == b;
    } else {
      assert (a + b)[1..] == a[1..] + b;
      JoinAppend(separator, a[1..], b);
      var head, tail, rest := a[0] + separator, Join(separator, a[1..]), Join(separator, b);
      assert Join(separator, a + b) == head + ((tail + separator) + rest);
      ConcatAssociative(head, tail + separator, rest);
      ConcatAssociative(head, tail, separator);
      assert Join(separator, a) == head + tail;
    }
  }

  /** The dialog the resize button ends with; "Resize complete!" is shown iff no asset failed. */
  function ResizeDialog(r: ResizeResponse): (d: Option<Dialog>)
    ensures d.None? <==> r.NothingSelected?
    ensures d.Some? && d.value.title == "Success" <==> r == Finished([])
    ensures r.Rejected? ==> d == Some(DimensionDialog(r.error))
    ensures r == Finished([]) ==> d == Some(Dialog("Success", "Resize complete!", Information))
    ensures r.Finished? && r.failedFiles != [] ==> d == Some(Dialog("Resize Error",
      "Could not resize the following files:\n" + Join("\n", r.failedFiles), Error))
  {
    match r
    case NothingSelected => None
    case Rejected(e) => Some(DimensionDialog(e))
    case Finished(failedFiles) =>
      if failedFiles == [] then Some(Dialog("Success", "Resize complete!", Information))
      else Some(Dialog("Resize Error", "Could not resize the following files:\n" + Join("\n", failedFiles), Error))
  }

  /** The outcome of Save As. */
  datatype SaveAsResponse =
    | InvalidSelection                    // not exactly one asset selected
    | SaveRejected(error: DimensionError) // a bad dimension field
    | Cancelled                           // the save dialog was dismissed
    | NotAnImage                          // the asset did not decode: nothing is written and nothing is said
    | Saved
    | FormatNotSupported                  // the writer refused the format name
    | SaveFailed(message: string)         // an IOException while reading or writing

  /**
   * The part of Save As after the user chose a file: read the asset, and on a
   * decoded image write it, resized, to the chosen file in the asset's format.
   */
  function SaveAsTo(disk: Disk, dir: FileRef, selectedAsset: string, width: int, height: int, fileToSave: string)
    : (r: Handled<SaveAsResponse>)
    ensures 1 <= |r.events| <= 2 && r.events[0] == ReadFile(Child(dir, selectedAsset))
    ensures |r.events| == 2 <==> disk.read(Child(dir, selectedAsset)).Decoded?
    ensures |r.events| == 2 ==>
      r.events[1] == WriteFile(ResizedImage(disk.read(Child(dir, selectedAsset)).image, width, height),
                               FormatName(selectedAsset), Chosen(fileToSave))
    ensures r.response == NotAnImage <==> disk.read(Child(dir, selectedAsset)).NoDecoder?
    ensures disk.read(Child(dir, selectedAsset)).ReadError? ==>
      r.response == SaveFailed(disk.read(Child(dir, selectedAsset)).message)
    ensures |r.events| == 2 ==> match disk.write(r.events[1].image, r.events[1].format, Chosen(fileToSave))
      case Written => r.response == Saved
      case NoWriter => r.response == FormatNotSupported
      case WriteError(message) => r.response == SaveFailed(message)
  {
    var originalFormatName := FormatName(selectedAsset);
    var assetFile := Child(dir, selectedAsset);
    match disk.read(assetFile)
    case NoDecoder => Handled(NotAnImage, [ReadFile(assetFile)])
    case ReadError(message) => Handled(SaveFailed(message), [ReadFile(assetFile)])
    case Decoded(original) =>
      var resized := ResizedImage(original, width, height);
      var target := Chosen(fileToSave);
      var accesses := [ReadFile(assetFile), WriteFile(resized, originalFormatName, target)];
      match disk.write(resized, originalFormatName, target)
      case Written => Handled(Saved, accesses)
      case NoWriter => Handled(FormatNotSupported, accesses)
      case WriteError(message) => Handled(SaveFailed(message), accesses)
  }

  /**
   * Save As: exactly one asset must be selected (checked before the fields
   * are parsed); the resized image goes to the chosen file in the asset's own
   * format, whatever suffix the chosen file has.
   */
  function SaveAs(disk: Disk, dir: FileRef, selected: seq<string>, width: Option<Int32>, height: Option<Int32>,
                  chosen: Option<string>): (r: Handled<SaveAsResponse>)
    ensures |selected| != 1 ==> r == Handled(InvalidSelection, [])
    ensures |selected| == 1 && ParseDimensions(width, height).Failure? ==>
      r == Handled(SaveRejected(ParseDimensions(width, height).error), [])
    ensures |selected| == 1 && ParseDimensions(width, height).Success? && chosen.None? ==> r == Handled(Cancelled, [])
    ensures forall e :: e in r.events && e.WriteFile? ==>
      |selected| == 1 && e.path.Chosen? && chosen == Some(e.path.file) &&
      e.format == FormatName(selected[0]) &&
      e.image.width == width.value && e.image.height == height.value && e.image.imageType != TypeCustom
    ensures |selected| == 1 && ParseDimensions(width, height).Success? && chosen.Some? ==>
      r == SaveAsTo(disk, dir, selected[0], width.value as int, height.value as int, chosen.value)
    ensures (exists e :: e in r.events && e.WriteFile?) <==>
      |selected| == 1 && ParseDimensions(width, height).Success? && chosen.Some? &&
      disk.read(Child(dir, selected[0])).Decoded?
  {
    if |selected| != 1 then Handled(InvalidSelection, [])
    else
      match ParseDimensions(width, height)
      case Failure(e) => Handled(SaveRejected(e), [])
      case Success(dims) =>
        match chosen
        case None => Handled(Cancelled, [])
        case Some(fileToSave) =>
          var r := SaveAsTo(disk, dir, selected[0], dims.0, dims.1, fileToSave);
          assert !r.events[0].WriteFile?;
          r
  }

  /** The dialog Save As ends with, if any. */
  function SaveAsDialog(r: SaveAsResponse): (d: Option<Dialog>)
    ensures d.None? <==> r.Cancelled? || r.NotAnImage? || r.Saved?
    ensures r.InvalidSelection? ==> d == Some(Dialog("Invalid Selection", "Please select a single image to save.", Warning))
    ensures r.SaveRejected? ==> d == Some(DimensionDialog(r.error))
    ensures r.FormatNotSupported? ==> d == Some(Dialog("Write Error", "Could not save image. Format not supported.", Error))
    ensures r.SaveFailed? ==> d == Some(Dialog("Error", "Error saving image: " + r.message, Error))
  {
    match r
    case InvalidSelection => Some(Dialog("Invalid Selection", "Please select a single image to save.", Warning))
    case SaveRejected(e) => Some(DimensionDialog(e))
    case Cancelled => None
    case NotAnImage => None
    case Saved => None
    case FormatNotSupported => Some(Dialog("Write Error", "Could not save image. Format not supported.", Error))
    case SaveFailed(message) => Some(Dialog("Error", "Error saving image: " + message, Error))
  }

  /**
   * The whole Save As flow ends without a dialog exactly when one asset is
   * selected, both fields are valid, and then the chooser is dismissed, the
   * asset does not decode, or the resized image is written.
   */
  lemma SaveAsSilentIff(disk: Disk, dir: FileRef, selected: seq<string>, width: Option<Int32>, height: Option<Int32>,
                        chosen: Option<string>)
    ensures SaveAsDialog(SaveAs(disk, dir, selected, width, height, chosen).response).None? <==>
      |selected| == 1 && ParseDimensions(width, height).Success? &&
      (chosen.None? || disk.read(Child(dir, selected[0])).NoDecoder? ||
       (disk.read(Child(dir, selected[0])).Decoded? &&
        disk.write(ResizedImage(disk.read(Child(dir, selected[0])).image, width.value as int, height.value as int),
                   FormatName(selected[0]), Chosen(chosen.value)).Written?))
  {
    if |selected| == 1 && ParseDimensions(width, height).Success? && chosen.Some? {
      var r := SaveAsTo(disk, dir, selected[0], width.value as int, height.value as int, chosen.value);
      assert SaveAs(disk, dir, selected, width, height, chosen) == r;
    }
  }

  /** The first asset of the mixed batch below decodes and is written back as a PNG. */
  lemma MixedBatchFirstStep(disk: Disk, dir: FileRef, sourceType: ImageType)
    requires disk.read(Child(dir, "a.png")) == Decoded(Image(10, 10, sourceType))
    requires disk.write(ResizedImage(Image(10, 10, sourceType), 5, 5), "png", Child(dir, "a.png")) == Written
    ensures ResizeAsset(disk, dir, "a.png", 5, 5) ==
      AssetStep(None, [ReadFile(Child(dir, "a.png")),
                       WriteFile(ResizedImage(Image(10, 10, sourceType), 5, 5), "png", Child(dir, "a.png"))])
  {
    assert FormatName("a.png") == "png" by { assert LastIndexOf("a.png", '.') == 1; }
  }

  /** The second asset of the mixed batch below does not decode and is reported. */
  lemma MixedBatchSecondStep(disk: Disk, dir: FileRef)
    requires disk.read(Child(dir, "b.png")) == NoDecoder
    ensures ResizeAsset(disk, dir, "b.png", 5, 5) == AssetStep(Some("b.png (not a valid image)"), [ReadFile(Child(dir, "b.png"))])
  {
    assert "b.png" + NotValidImageReason == "b.png (not a valid image)";
  }

  /**
   * A directory holding a decodable a.png and a b.png that does not decode:
   * resizing both to 5x5 rewrites a.png as a 5x5 PNG and reports b.png alone.
   */
  lemma MixedBatchScenario(disk: Disk, dir: FileRef, sourceType: ImageType)
    requires disk.read(Child(dir, "a.png")) == Decoded(Image(10, 10, sourceType))
    requires disk.read(Child(dir, "b.png")) == NoDecoder
    requires disk.write(ResizedImage(Image(10, 10, sourceType), 5, 5), "png", Child(dir, "a.png")) == Written
    ensures ResizeAction(disk, dir, ["a.png", "b.png"], Some(5), Some(5)) ==
      Handled(Finished(["b.png (not a valid image)"]),
              [ReadFile(Child(dir, "a.png")),
               WriteFile(ResizedImage(Image(10, 10, sourceType), 5, 5), "png", Child(dir, "a.png")),
               ReadFile(Child(dir, "b.png"))])
  {
    MixedBatchFirstStep(disk, dir, sourceType);
    MixedBatchSecondStep(disk, dir);
    BatchSingle(disk, dir, "a.png", 5, 5);
    BatchSnoc(disk, dir, ["a.png"], "b.png", 5, 5);
    assert ["a.png"] + ["b.png"] == ["a.png", "b.png"];
    var a, b := Child(dir, "a.png"), Child(dir, "b.png");
    assert Batch(disk, dir, ["a.png", "b.png"], 5, 5) == BatchResult(["b.png (not a valid image)"],
      [ReadFile(a), WriteFile(ResizedImage(Image(10, 10, sourceType), 5, 5), "png", a), ReadFile(b)]);
    assert ParseDimensions(Some(5), Some(5)) == Success((5, 5));
  }

  /**
   * Save As on photo.jpg at 100x50 to out.png writes a JPEG of 100x50 to
   * out.png: the format is the asset's, not the chosen suffix.
   */
  lemma SaveAsScenario(disk: Disk, dir: FileRef, original: Image)
    requires disk.read(Child(dir, "photo.jpg")) == Decoded(original)
    ensures SaveAs(disk, dir, ["photo.jpg"], Some(100), Some(50), Some("out.png")).events ==
      [ReadFile(Child(dir, "photo.jpg")), WriteFile(ResizedImage(original, 100, 50), "jpg", Chosen("out.png"))]
  {
    assert FormatName("photo.jpg") == "jpg" by {
      assert LastIndexOf("photo.jpg", '.') == 5;
    }
  }
}
