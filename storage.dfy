/** Values exchanged with the object store and the filesystem layer. */
module Storage {
  import opened Wrappers

  /** League\Flysystem\FileAttributes: what a metadata or visibility query
      returns about one object. */
  datatype FileAttributes = FileAttributes(
    path: string,
    fileSize: Option<int>,
    visibility: Option<string>,
    lastModified: Option<int>,
    mimeType: Option<string>)

  /** The exceptions the package throws or lets through. */
  datatype Exception =
    | OssException(httpStatus: int)   // an error reported by the object store
    | BadMethodCallException          // an operation the adapter does not offer
    | InvalidArgumentException        // text that HUrl::instance cannot parse

  /** The store's answer for a key it does not hold. */
  const NoSuchKey: Exception := OssException(404)
}
