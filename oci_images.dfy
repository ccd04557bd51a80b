/** OCI images the image embeds, as the builder collects them. */
module OciImages {
  import opened Wrappers
  import opened Values
  import opened Collaborators

  /**
   * An `OCIImage`: the parsed image reference (held as its canonical name),
   * the optional download URL, and the compressed and expanded sizes.
   */
  datatype OCIImage = OCIImage(oci: string, url: Option<string>, filesize: int, fullsize: int)

  /** `OCIImage(ident, filesize, fullsize, url)`. */
  function NewOCIImage(ident: string, filesize: int, fullsize: int, url: Option<string>, env: Env): (r: OCIImage)
    ensures r.oci == env.imageName(ident) && r.url == url
    ensures r.filesize == filesize && r.fullsize == fullsize
  {
    OCIImage(env.imageName(ident), url, filesize, fullsize)
  }

  /** `__hash__`: derived from the image name only. */
  function Hash(img: OCIImage): string
  {
    img.oci
  }

  /** The `size` property of the item interface. */
  function Size(img: OCIImage): int
  {
    img.filesize
  }

  /** The `source` property of the item interface. */
  function Source(img: OCIImage): string
  {
    img.oci
  }

  /** `to_dict()`: exactly ident, filesize, fullsize and url, with None for a missing url. */
  function ToDict(img: OCIImage): (d: map<string, Value>)
    ensures d.Keys == {"ident", "filesize", "fullsize", "url"}
    ensures d["ident"] == Str(img.oci) && d["filesize"] == Int(img.filesize) && d["fullsize"] == Int(img.fullsize)
    ensures d["url"] == (if img.url.Some? then Str(img.url.value) else Null)
  {
    map["ident" := Str(img.oci), "filesize" := Int(img.filesize), "fullsize" := Int(img.fullsize),
        "url" := if img.url.Some? then Str(img.url.value) else Null]
  }

  /** `to_dict` loses nothing: the image can be read back from it. */
  function FromDict(d: map<string, Value>): Option<OCIImage>
  {
    if "ident" in d && "filesize" in d && "fullsize" in d && "url" in d
       && d["ident"].Str? && d["filesize"].Int? && d["fullsize"].Int? && (d["url"].Str? || d["url"].Null?)
    then Some(OCIImage(d["ident"].s, if d["url"].Str? then Some(d["url"].s) else None, d["filesize"].i, d["fullsize"].i))
    else None
  }

  lemma DictRoundTrip(img: OCIImage)
    ensures FromDict(ToDict(img)) == Some(img)
  {
  }
}
