/** The fixed paths and names shared by the configuration modules. */
module Constants {
  import Paths

  /** `/data`, the data partition's mount point in the image. */
  const DataPartPath := Paths.Path(true, ["data"])

  /** `/data/contents`, where packages keep their payload. */
  const ContentTargetPath := Paths.Path(true, ["data", "contents"])

  /** The archive formats `shutil.get_unpack_formats` lists on a stock Python. */
  const SupportedUnpackingFormats: seq<string> := ["bztar", "gztar", "tar", "xztar", "zip"]

  /** The checksum algorithms aria2c accepts. */
  const SupportedChecksumAlgorithms: seq<string> :=
    ["sha-1", "sha-224", "sha-256", "sha-384", "sha-512", "md5", "adler32"]
}
