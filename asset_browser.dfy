/**
 * The mutable state of the asset resizer: the current directory that asset
 * names resolve against and the list model the window shows. Opening a
 * directory replaces both; the resize button runs its batch over the selected
 * entries of the list.
 */
module AssetBrowserApp {
  import opened Wrappers
  import opened AssetNames
  import opened Platform
  import opened ResizeActions

  /** Selected indices as the list reports them: within the list and strictly increasing. */
  predicate IsSelection(indices: seq<int>, size: nat) {
    (forall k :: 0 <= k < |indices| ==> 0 <= indices[k] < size) &&
    (forall k, l :: 0 <= k < l < |indices| ==> indices[k] < indices[l])
  }

  /** The selected entries in list order (getSelectedValuesList). */
  function SelectedValues(items: seq<string>, indices: seq<int>): (r: seq<string>)
    requires IsSelection(indices, |items|)
    ensures |r| == |indices|
    ensures forall k :: 0 <= k < |r| ==> r[k] == items[indices[k]]
  {
    seq(|indices|, k requires 0 <= k < |indices| => items[indices[k]])
  }

  /**
   * The names a load leaves in the list: the image names of a readable
   * directory's listing; nothing for a null file, a file that is not a
   * directory, or a listing that failed.
   */
  function LoadedNames(directory: FileRef, listing: DirListing): (r: seq<string>)
    ensures !(directory.FileAt? && listing.Entries?) ==> r == []
    ensures listing.Entries? ==> |r| <= |listing.names|
  {
    if directory.FileAt? && listing.Entries? then Filter(listing.names, IsImageName) else []
  }

  /** After a load the list holds exactly the image names of the listing, and only of a readable directory. */
  lemma LoadedNamesMembership(directory: FileRef, listing: DirListing, x: string)
    ensures x in LoadedNames(directory, listing) <==>
      directory.FileAt? && listing.Entries? && x in listing.names && IsImageName(x)
  {
    if directory.FileAt? && listing.Entries? {
      FilterMembership(listing.names, IsImageName, x);
    }
  }

  /** The list keeps the listing's order: loading the listing a + b lists a's image names, then b's. */
  lemma LoadedNamesInListingOrder(directory: FileRef, a: seq<string>, b: seq<string>)
    requires directory.FileAt?
    ensures LoadedNames(directory, Entries(a + b)) == LoadedNames(directory, Entries(a)) + LoadedNames(directory, Entries(b))
  {
    FilterAppend(a, b, IsImageName);
  }

  class AssetBrowser {
    /** The directory asset names resolve against; null until a directory is opened. */
    var currentDirectory: FileRef
    /** The entries shown in the asset list. */
    var listModel: seq<string>

    /** Every listed entry passed the image-name filter. */
    ghost predicate Valid()
      reads this
    {
      forall i :: 0 <= i < |listModel| ==> IsImageName(listModel[i])
    }

    constructor ()
      ensures Valid()
      ensures currentDirectory == NullFile && listModel == []
    {
      currentDirectory := NullFile;
      listModel := [];
    }

    /**
     * Open a directory: set the current directory and clear the list in every
     * case, then append the image names of the listing one by one.
     */
    method LoadAssetsFromDirectory(directory: FileRef, listing: DirListing)
      modifies this
      ensures Valid()
      ensures currentDirectory == directory
      ensures listModel == LoadedNames(directory, listing)
    {
      currentDirectory := directory;
      listModel := [];
      if directory.FileAt? && !listing.NotADirectory? {
        match listing
        case ListFailed =>
          // list(filter) answers null when the directory cannot be read
        case Entries(names) =>
          var files := Filter(names, IsImageName);
          for i := 0 to |files|
            invariant currentDirectory == directory
            invariant listModel == files[..i]
          {
            listModel := listModel + [files[i]];
          }
          assert files[..|files|] == files;
          FilterAccepted(names, IsImageName);
      }
    }

    /**
     * The resize button over the selected entries: nothing on an empty
     * selection, one validation error on a bad field, otherwise the batch.
     */
    method Resize(selectedIndices: seq<int>, widthField: Option<Int32>, heightField: Option<Int32>, disk: Disk)
      returns (response: ResizeResponse, events: seq<IoEvent>)
      requires IsSelection(selectedIndices, |listModel|)
      ensures Handled(response, events) ==
        ResizeAction(disk, currentDirectory, SelectedValues(listModel, selectedIndices), widthField, heightField)
    {
      var selectedAssets := SelectedValues(listModel, selectedIndices);
      if selectedAssets == [] {
        return NothingSelected, [];
      }
      if widthField.None? || heightField.None? {
        return Rejected(InvalidInput), [];
      }
      var width, height := widthField.value as int, heightField.value as int;
      if width <= 0 || height <= 0 {
        return Rejected(InvalidDimensions), [];
      }
      var failedFiles;
      failedFiles, events := ResizeBatch(disk, currentDirectory, selectedAssets, width, height);
      response := Finished(failedFiles);
    }

    /**
     * The Save As menu item over the selected entries: exactly one must be
     * selected, then both fields must be valid, then the chooser must be
     * approved; the asset is read from the current directory.
     */
    method SaveSelectedAs(selectedIndices: seq<int>, widthField: Option<Int32>, heightField: Option<Int32>,
                          chosen: Option<string>, disk: Disk)
      returns (response: SaveAsResponse, events: seq<IoEvent>)
      requires IsSelection(selectedIndices, |listModel|)
      ensures Handled(response, events) ==
        SaveAs(disk, currentDirectory, SelectedValues(listModel, selectedIndices), widthField, heightField, chosen)
    {
      var selectedAssets := SelectedValues(listModel, selectedIndices);
      if |selectedAssets| != 1 {
        return InvalidSelection, [];
      }
      var selectedAsset := selectedAssets[0];
      if widthField.None? || heightField.None? {
        return SaveRejected(InvalidInput), [];
      }
      var width, height := widthField.value as int, heightField.value as int;
      if width <= 0 || height <= 0 {
        return SaveRejected(InvalidDimensions), [];
      }
      if chosen.None? {
        return Cancelled, [];
      }
      var saved := SaveAsTo(disk, currentDirectory, selectedAsset, width, height, chosen.value);
      response, events := saved.response, saved.events;
    }
  }

  /**
   * The body of the resize loop for one asset: read it; a null image or an
   * IOException ends this asset with a failure entry; otherwise draw it into
   * the resized canvas and write it back over the same file in the format of
   * the asset's suffix, a refused or failed write giving a failure entry.
   */
  method ResizeAssetFile(disk: Disk, dir: FileRef, selectedAsset: string, width: int, height: int)
    returns (failure: Option<string>, accesses: seq<IoEvent>)
    ensures AssetStep(failure, accesses) == ResizeAsset(disk, dir, selectedAsset, width, height)
  {
    var assetFile := Child(dir, selectedAsset);
    accesses := [ReadFile(assetFile)];
    var originalImage := disk.read(assetFile);
    if originalImage.NoDecoder? {
      return Some(selectedAsset + NotValidImageReason), accesses;
    }
    if originalImage.ReadError? {
      return Some(selectedAsset + IoErrorReason), accesses;
    }
    var source := originalImage.image;
    var imageType := if source.imageType == TypeCustom then TypeIntArgb else source.imageType;
    var resizedImage := Image(width, height, imageType);
    var formatName := FormatName(selectedAsset);
    accesses := accesses + [WriteFile(resizedImage, formatName, assetFile)];
    var written := disk.write(resizedImage, formatName, assetFile);
    failure := None;
    if written.NoWriter? {
      failure := Some(selectedAsset + WriteFailedReason);
    } else if written.WriteError? {
      failure := Some(selectedAsset + IoErrorReason);
    }
  }

  /**
   * The loop of the resize button: every selected asset in order, each
   * failure adding one entry to the failure list without stopping the loop.
   */
  method ResizeBatch(disk: Disk, dir: FileRef, selectedAssets: seq<string>, width: int, height: int)
    returns (failedFiles: seq<string>, events: seq<IoEvent>)
    ensures BatchResult(failedFiles, events) == Batch(disk, dir, selectedAssets, width, height)
  {
    failedFiles := [];
    events := [];
    for i := 0 to |selectedAssets|
      invariant Batch(disk, dir, selectedAssets[..i], width, height) == BatchResult(failedFiles, events)
    {
      var failure, accesses := ResizeAssetFile(disk, dir, selectedAssets[i], width, height);
      BatchPrefixStep(disk, dir, selectedAssets, i, width, height);
      failedFiles := failedFiles + OptionToSeq(failure);
      events := events + accesses;
    }
    assert selectedAssets[..|selectedAssets|] == selectedAssets;
  }

  /**
   * Every selected asset of a loaded list has a format name that is, up to
   * case, one of the five listed extensions; the batch and Save As write in it.
   */
  lemma SelectedFormatNames(browser: AssetBrowser, selectedIndices: seq<int>, k: nat)
    requires browser.Valid()
    requires IsSelection(selectedIndices, |browser.listModel|)
    requires k < |selectedIndices|
    ensures Lower(FormatName(SelectedValues(browser.listModel, selectedIndices)[k])) in Extensions
  {
    ListedFormatName(browser.listModel[selectedIndices[k]]);
  }
}
