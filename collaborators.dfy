/**
 * The functions the configuration code calls but does not define: network
 * lookups, the host's file system, third-party parsers and randomness. They
 * are passed around as one record of uninterpreted functions.
 */
module Collaborators {
  import opened Wrappers

  datatype Env = Env(
    /** `get_online_rsc_size(url)`: a size, or -1 / -2 when the lookup fails. */
    onlineSize: string -> int,
    /** `get_filesize(path)` on the host. */
    localSize: string -> int,
    /** `read_checksum_from(url)`; None when it raises. */
    readChecksum: string -> Option<string>,
    /** `get_base64_from(url)`; "" when the download fails. */
    base64From: string -> string,
    /** humanfriendly's `parse_size(text)`; None when it raises. */
    parseSize: string -> Option<int>,
    /** `sanitize_filename(ZimPackage.from_ident(ident).publisher_name_flavour)`. */
    zimStem: string -> string,
    /** `get_libkiwix_humanid(filename)`. */
    humanId: string -> string,
    /** `str(docker_export.Image.parse(ident))`, the canonical name of an OCI image reference. */
    imageName: string -> string,
    /** `uuid.uuid4().hex`. */
    uuidHex: string,
    /** `os.getcwd()`, against which `Path.resolve` anchors relative paths. */
    cwd: string)
}
