# Asset resizer: a verified model of its logic

ProjectAssetResize is a small Swing desktop tool. It opens a folder, lists the
image files in it, and resizes the selected entries to a typed width and
height. "Resize" overwrites each selected file in place. "Save As" writes one
selected image to a file the user chooses. This project models the logic inside
`Main.java` that decides what happens:

- the file-name filter of the directory loader, and the load itself, which
  replaces the current directory and the list;
- the format name an image is written in, which is the text after the last
  dot of the asset's name;
- the guards on the selection and on the width and height fields, which reject
  bad input before any file is touched;
- the resize batch, which goes through the selected assets in order, collects
  one failure entry for each asset that fails, and keeps going. Its resized
  canvas keeps the source pixel type, except that TYPE_CUSTOM falls back to
  TYPE_INT_ARGB;
- the Save As flow, which accepts exactly one selection and writes to the
  chosen file in the asset's own format.

The imaging library and the filesystem are replaced by an oracle, `Platform.Disk`.
It says how reading a path and writing an image turn out.
- A read returns a decoded image (its width, height and pixel type), `NoDecoder`
  (what `ImageIO.read` signals with `null`) or an I/O error.
- A write returns written, `NoWriter` (`ImageIO.write` returning `false`) or an
  I/O error.

Each action returns the file accesses it attempted as a trace of `IoEvent`s.
A statement such as "no file is read or written" is then a statement about that
trace. The one exception is the preview listener, which is not modelled: its
reads are not in any trace, including the one it makes when the resize button
re-selects the list after a batch. Pixels are not modelled.

Modules:

- `Wrappers`: `Option` and `Result`.
- `AssetNames`: the pure string logic, which covers ASCII lower-casing, `lastIndexOf`, the
  file-name filter (with the regular expression it stands for), the format
  name and the order-keeping filter over a listing.
- `Platform`: images, file references, paths, directory listings, the oracle
  and the I/O events.
- `ResizeActions`: the dimension guard, the image-type rule, one asset of a
  batch, the batch as a specification function and its lemmas, the resize
  button, Save As, and the dialogs each of them ends with.
- `AssetBrowserApp`: the mutable state. The class `AssetBrowser` holds the current
  directory and the list model. Its load method is a loop over the filtered
  listing. Its resize method runs the guards and then hands over to `ResizeBatch`,
  the loop over the selection. Its Save As method runs the Save As guards on the
  selected entries and the current directory. All three are proved against the
  functions above.

Where a plain "ends with one of the suffixes" reading and the code differ, the model follows the code:
- Java's `String.matches` treats `.` in `.*` as any character except a line
  terminator (`\n`, `\r`, U+0085, U+2028, U+2029). So a name with a line
  terminator before its last dot is not listed, although a plain "ends with one of
  the suffixes" reading would list it. `AssetNames.IsImageName` models that exclusion.
- The loader clears the list and then appends one entry at a time. The list
  is not replaced in one atomic step.

## Model

| member | source | states |
|---|---|---|
| AssetNames.LastIndexOf | src/main/java/org/example/Main.java:128 | the result is -1 exactly when the character is absent; otherwise it is a position holding the character, with no occurrence after it |
| AssetNames.LastIndexOfAtLeast | src/main/java/org/example/Main.java:128 | the last occurrence is at or after any given occurrence |
| AssetNames.LastIndexOfAtMost | src/main/java/org/example/Main.java:128 | with no occurrence after k, the last occurrence is at or before k |
| AssetNames.FormatName | src/main/java/org/example/Main.java:128 | the format name is a dot-free suffix of the asset name that keeps its case; it follows a dot when the name has one and is the whole name when it has none |
| AssetNames.LowerChar | src/main/java/org/example/Main.java:226 | `toLowerCase` on one character, read as ASCII: 'A' to 'Z' move to 'a' to 'z' and every other character stays as it is (no contract; used by `Lower`) |
| AssetNames.IsLineTerminator | src/main/java/org/example/Main.java:226 | the characters the regular-expression `.` does not match: `\n`, `\r`, U+0085, U+2028 and U+2029 (no contract; used by the filter and by the pattern reading) |
| AssetNames.Lower | src/main/java/org/example/Main.java:226 | lower-casing keeps the length and maps each character through ASCII `toLowerCase` |
| AssetNames.IsImageName | src/main/java/org/example/Main.java:226 | the filter `name.toLowerCase().matches(...)`; what it accepts is stated by `AssetNames.ImageNameParts`, `AssetNames.IsImageNameIffPattern` and `AssetNames.NoDotRejected` |
| AssetNames.LastIndexOfLower | src/main/java/org/example/Main.java:226 | lower-casing keeps the position of the last dot |
| AssetNames.ImageNameParts | src/main/java/org/example/Main.java:226 | a name is listed iff it has a last dot, the text after that dot lower-cases to one of png/jpg/jpeg/bmp/gif, and the text before it holds no line terminator |
| AssetNames.MatchesImagePattern | src/main/java/org/example/Main.java:226 | the literal reading of `name.toLowerCase().matches(".*\\.(png\|jpg\|jpeg\|bmp\|gif)$")`: for some alternative, the lower-cased name ends in a dot and that alternative, and the text before the dot has no line terminator (no contract; the definition the filter is proved equal to by `IsImageNameIffPattern`) |
| AssetNames.MatchesWithExtension | src/main/java/org/example/Main.java:226 | the match of the pattern with one given alternative: the alternative is one of png, jpg, jpeg, bmp, gif, the name ends in a dot and it, and `.*` covers the text before that dot (no contract; part of `MatchesImagePattern`) |
| AssetNames.ImageNameMatchesPattern | src/main/java/org/example/Main.java:226 | a listed name matches the loader's regular expression, read literally on the lower-cased name: some line-terminator-free text, a dot, one of png, jpg, jpeg, bmp, gif, and the end |
| AssetNames.ExtensionIsImageName | src/main/java/org/example/Main.java:226 | a lower-cased name ending in a dot and one alternative of the pattern, with no line terminator before that dot, is listed |
| AssetNames.PatternIsImageName | src/main/java/org/example/Main.java:226 | a name the regular expression matches is listed |
| AssetNames.IsImageNameIffPattern | src/main/java/org/example/Main.java:226 | the filter accepts exactly the names the regular expression matches |
| AssetNames.NoDotRejected | src/main/java/org/example/Main.java:226 | a name without a dot is never listed |
| AssetNames.LastDotBeforeExtension | src/main/java/org/example/Main.java:226 | in stem + "." + ext with a dot-free ext, the last dot is the one after stem |
| AssetNames.ImageNameSplit | src/main/java/org/example/Main.java:226 | stem + "." + ext, with a dot-free ext, is listed iff ext lower-cases to a listed extension and stem holds no line terminator |
| AssetNames.UpperCaseAccepted | src/main/java/org/example/Main.java:226 | "A.PNG" is listed |
| AssetNames.BareExtensionAccepted | src/main/java/org/example/Main.java:226 | ".gif" is listed |
| AssetNames.InnerExtensionRejected | src/main/java/org/example/Main.java:226 | "a.png.txt" is not listed |
| AssetNames.MissingDotRejected | src/main/java/org/example/Main.java:226 | "png" is not listed |
| AssetNames.LineTerminatorRejected | src/main/java/org/example/Main.java:226 | "a\n.png" is not listed, because `.*` does not cross the line terminator |
| AssetNames.ListedFormatName | src/main/java/org/example/Main.java:128 | every listed asset is written in a format whose lower-cased name is one of the five extensions |
| AssetNames.Filter | src/main/java/org/example/Main.java:226 | a filtered listing is never longer than the listing |
| AssetNames.FilterMembership | src/main/java/org/example/Main.java:226 | an entry survives the filter iff it is in the listing and the filter accepts it |
| AssetNames.FilterAppend | src/main/java/org/example/Main.java:226-231 | filtering a + b gives the filtered a followed by the filtered b, so listing order is kept |
| AssetNames.FilterAccepted | src/main/java/org/example/Main.java:226 | every entry the filter keeps is accepted by it |
| AssetNames.FilterKeepsAccepted | src/main/java/org/example/Main.java:226 | the filter returns the listing unchanged iff it accepts every entry |
| AssetBrowserApp.SelectedValues | src/main/java/org/example/Main.java:102 | the selected values are the list entries at the selected indices, in index order |
| AssetBrowserApp.LoadedNames | src/main/java/org/example/Main.java:222-233 | the list a load leaves: empty unless the file is a readable directory, and never longer than its listing; its contents are stated by `LoadedNamesMembership` and `LoadedNamesInListingOrder` |
| AssetBrowserApp.LoadedNamesMembership | src/main/java/org/example/Main.java:222-233 | after a load, a name is listed iff the directory is a readable directory, the name is in its listing and the filter accepts it; a null file, a non-directory or a failed listing leaves the list empty |
| AssetBrowserApp.LoadedNamesInListingOrder | src/main/java/org/example/Main.java:226-231 | the loaded list keeps the order in which the filesystem enumerates the entries |
| AssetBrowserApp.AssetBrowser.constructor | src/main/java/org/example/Main.java:15-26 | the tool starts with a null current directory and an empty list |
| AssetBrowserApp.AssetBrowser.LoadAssetsFromDirectory | src/main/java/org/example/Main.java:222-233 | the current directory is always replaced, the list ends as exactly the filtered listing of a readable directory (empty otherwise), and every listed entry passes the filter |
| AssetBrowserApp.AssetBrowser.Resize | src/main/java/org/example/Main.java:101-150 | the resize button's answer and file accesses are those of `ResizeActions.ResizeAction` on the selected entries and the current directory |
| AssetBrowserApp.AssetBrowser.SaveSelectedAs | src/main/java/org/example/Main.java:152-194 | the Save As menu item's answer and file accesses are those of `ResizeActions.SaveAs` on the selected entries and the current directory |
| AssetBrowserApp.ResizeAssetFile | src/main/java/org/example/Main.java:115-134 | the loop body for one asset makes the failure entry and the file accesses that `ResizeActions.ResizeAsset` specifies |
| AssetBrowserApp.ResizeBatch | src/main/java/org/example/Main.java:113-135 | the loop over the selected assets builds the failure list and the access trace that `ResizeActions.Batch` specifies |
| AssetBrowserApp.SelectedFormatNames | src/main/java/org/example/Main.java:128 | every selected entry of a loaded list is written in a format whose lower-cased name is one of the five extensions |
| ResizeActions.ParseDimensions | src/main/java/org/example/Main.java:105-111 | the dimensions are accepted iff both fields parse and both values are positive; a field that does not parse gives the invalid-input error and nothing else does |
| ResizeActions.DimensionDialog | src/main/java/org/example/Main.java:109 | a field that does not parse gives the "Invalid Input" error "Please enter valid numbers for width and height." (lines 147-148, 189-190); a non-positive value gives the "Invalid Dimensions" error "Width and height must be positive numbers." (lines 109, 163); both are errors |
| ResizeActions.ResizedImage | src/main/java/org/example/Main.java:122-123 | the canvas is exactly width by height, is never TYPE_CUSTOM, keeps the source type whenever that is not TYPE_CUSTOM, and is TYPE_INT_ARGB when the source is TYPE_CUSTOM (type 0) |
| ResizeActions.ResizeAsset | src/main/java/org/example/Main.java:115-134 | one asset is read first; it is written back, resized and in its own format, to the same file iff it decoded; each outcome gives its own failure entry ("(not a valid image)", "(IO Error)", "(write failed)"), and there is none iff it decoded and was written |
| ResizeActions.Batch | src/main/java/org/example/Main.java:113-135 | in total, a batch has at most as many failure entries as assets and between one and two file accesses per asset, and every write it makes is width by height and not TYPE_CUSTOM; the per-asset reading follows from `ResizeAsset` and `BatchAppend` |
| ResizeActions.CountFailures | src/main/java/org/example/Main.java:118-133 | a count of the selected assets whose own step fails, independent of the failure list; never more than the number of assets |
| ResizeActions.BatchSnoc | src/main/java/org/example/Main.java:114 | adding an asset at the end of the selection appends its step to the failure list and to the trace |
| ResizeActions.BatchPrefixStep | src/main/java/org/example/Main.java:114 | the batch over the first i + 1 assets extends the batch over the first i by the step of asset i |
| ResizeActions.BatchAppend | src/main/java/org/example/Main.java:114-135 | assets are processed independently: the batch over a + b is the batch over a followed by the batch over b |
| ResizeActions.BatchSingle | src/main/java/org/example/Main.java:114-135 | the batch over one asset is that asset's step |
| ResizeActions.FailedFilesCount | src/main/java/org/example/Main.java:119-133 | the failure list has exactly one entry per failing asset |
| ResizeActions.FailedFileInOrder | src/main/java/org/example/Main.java:113-135 | a failing asset's entry comes after the entries of the failing assets before it, so the list is in selection order |
| ResizeActions.FailedFileOrigin | src/main/java/org/example/Main.java:119-133 | every entry of the failure list is the entry of some failing selected asset, so successful assets never appear |
| ResizeActions.NoFailuresIffAllWritten | src/main/java/org/example/Main.java:113-135 | the failure list is empty iff every selected asset was read, resized and written |
| ResizeActions.EveryAssetAttempted | src/main/java/org/example/Main.java:114-135 | a failure does not stop the batch: every selected asset is read, and every one that decodes is written back resized in the format of its own name |
| ResizeActions.ResizeAction | src/main/java/org/example/Main.java:101-150 | an empty selection does nothing; a bad field gives exactly one validation error and no file access; otherwise the answer and the accesses are the batch's |
| ResizeActions.Join | src/main/java/org/example/Main.java:144 | `String.join`: empty for no lines, the line itself for one line, and otherwise the text starts with the first line and ends with the last |
| ResizeActions.JoinAppend | src/main/java/org/example/Main.java:144 | joining a + b is the joined a, one separator and the joined b; with the one-line case this puts every line in order, one separator between neighbours |
| ResizeActions.ResizeDialog | src/main/java/org/example/Main.java:141-148 | there is no dialog only for an empty selection; a bad field gives its validation dialog (`DimensionDialog`); "Success" appears iff the batch finished with no failures, as the information "Resize complete!"; otherwise a finished batch shows the error "Resize Error" listing its failures joined by newlines (see `JoinAppend`) under "Could not resize the following files:" |
| ResizeActions.SaveAsTo | src/main/java/org/example/Main.java:172-188 | Save As reads the asset, writes to the chosen file iff the asset decoded, uses the resized image and the asset's own format, and reports nothing for an undecodable asset, a refused format for a false write, and the message of any I/O error |
| ResizeActions.SaveAs | src/main/java/org/example/Main.java:152-194 | Save As is rejected unless exactly one asset is selected, before the fields are read; a bad field rejects it without file access; a dismissed chooser does nothing; after an approved chooser it is exactly `SaveAsTo` on the selected asset, the typed size and the chosen file; the only write goes to the chosen file in the asset's format at the typed size, and a write happens iff every stage passes and the asset decodes |
| ResizeActions.SaveAsDialog | src/main/java/org/example/Main.java:153-192 | there is no dialog exactly for a dismissed chooser, an undecodable asset or a successful write; an invalid selection is the "Invalid Selection" warning, a bad field its validation dialog, a false write "Write Error" / "Could not save image. Format not supported.", and an I/O error "Error" / "Error saving image: " followed by the exception's message |
| ResizeActions.SaveAsSilentIff | src/main/java/org/example/Main.java:152-194 | the whole Save As flow ends without a dialog iff exactly one asset is selected, both fields are valid, and then the chooser is dismissed, the asset does not decode, or the resized image is written to the chosen file |
| ResizeActions.MixedBatchScenario | src/main/java/org/example/Main.java:113-135 | resizing a decodable a.png and an undecodable b.png to 5x5 rewrites a.png as a 5x5 PNG and reports only "b.png (not a valid image)" |
| ResizeActions.MixedBatchFirstStep | src/main/java/org/example/Main.java:117-131 | a decodable a.png of any pixel type, resized to 5x5, is written back as the 5x5 canvas `ResizedImage` gives, in format "png", with no failure |
| ResizeActions.MixedBatchSecondStep | src/main/java/org/example/Main.java:117-120 | an undecodable b.png gives "b.png (not a valid image)" after one read |
| ResizeActions.SaveAsScenario | src/main/java/org/example/Main.java:169-184 | Save As of photo.jpg at 100x50 to out.png writes a 100x50 image to out.png in the format "jpg" |

## Left out

- Swing layout, menus, the preview label, dialogs as windows and `JFileChooser`. They are user-interface plumbing. A dialog is modelled as its title, text and kind. The chooser's answer is a parameter: `Option<string>`, which is `None` when the chooser is dismissed.
- The default file name "resized_" + asset that the Save As chooser starts with (line 170). It only pre-fills the chooser, whose answer is a parameter.
- The preview listener (lines 68-91). It reads one image to show a thumbnail and does not change the list, the current directory or any file.
- Re-selecting the list after a resize (lines 137-139). It restores the same selection. `setSelectedIndices` adds the indices back one at a time and fires the preview listener once per selected entry; each run reads the first selected file again. Those reads are not in the resize trace.
- `setAppIcon` (lines 204-220) only looks up classpath resources, and the hard-coded startup directory (line 197) is a deployment detail. The startup call is just `LoadAssetsFromDirectory` on that path.
- `SwingUtilities.invokeLater` and threading. Each handler is modelled as one atomic step.
- Pixels, `Graphics2D.drawImage` and resampling. An image is its width, height and pixel type only.
- The internals of `Integer.parseInt`. A field is modelled as its parse result: a 32-bit value, or `None` for the text that throws `NumberFormatException`.
- Locale-dependent `toLowerCase`. Lower-casing is ASCII only.
- The filesystem and `ImageIO` are one stateless oracle. A write in the model does not change what a later read of the same file returns. Exceptions other than `IOException`, such as a `BufferedImage` that cannot be allocated, are not modelled.
