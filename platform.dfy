/**
 * What the asset resizer needs from the platform, with the imaging library and
 * the filesystem replaced by an oracle. An image is only its dimensions and its
 * pixel type (no pixels); decoding and encoding are answers the oracle gives;
 * every read and write the program attempts is recorded as an event.
 */
module Platform {

  /** The values BufferedImage.getType() returns: 0 (TYPE_CUSTOM) to 13 (TYPE_BYTE_INDEXED). */
  type ImageType = t: int | 0 <= t <= 13

  /** TYPE_CUSTOM: the image's colour model has no predefined type. */
  const TypeCustom: ImageType := 0

  /** TYPE_INT_ARGB: 8-bit RGBA packed into integer pixels. */
  const TypeIntArgb: ImageType := 2

  datatype Image = Image(width: int, height: int, imageType: ImageType)

  /** A java.io.File that may be null. */
  datatype FileRef = NullFile | FileAt(path: string)

  /** The files the program reads and writes: an asset under a directory, or a file the user chose. */
  datatype Path = Child(parent: FileRef, name: string) | Chosen(file: string)

  /** What the filesystem says of the directory being opened. */
  datatype DirListing =
    | NotADirectory                  // isDirectory() is false
    | ListFailed                     // list(...) returned null
    | Entries(names: seq<string>)    // the entries, in the order the filesystem enumerates them

  /** ImageIO.read: an image, null (no decoder recognises the content), or an IOException. */
  datatype ReadResult = Decoded(image: Image) | NoDecoder | ReadError(message: string)

  /** ImageIO.write: true, false (no writer for the format name), or an IOException. */
  datatype WriteResult = Written | NoWriter | WriteError(message: string)

  /** The oracle: how reading a path and writing an image in a format to a path turn out. */
  datatype Disk = Disk(read: Path -> ReadResult, write: (Image, string, Path) -> WriteResult)

  /** One attempted file access. */
  datatype IoEvent =
    | ReadFile(path: Path)
    | WriteFile(image: Image, format: string, path: Path)
}
