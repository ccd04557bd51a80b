/** Download checksums, validated on construction, with a lazily fetched digest. */
module Checksums {
  import opened Wrappers
  import opened Strings
  import Constants

  /** The three attributes of a checksum, as `to_dict` yields them. */
  datatype ChecksumValue = ChecksumValue(algo: string, value: string, kind: string)

  predicate IsValid(v: ChecksumValue)
  {
    v.algo in Constants.SupportedChecksumAlgorithms && v.kind in ["digest", "url"]
  }

  /** `Checksum(algo=…, value=…, kind=…)`: an unknown algo or kind raises ValueError. */
  function NewChecksum(algo: string, value: string, kind: string := "digest"): (r: Result<ChecksumValue>)
    ensures r.Ok? <==> IsValid(ChecksumValue(algo, value, kind))
    ensures r.Ok? ==> r.value == ChecksumValue(algo, value, kind)
    ensures r.Err? ==> r.error.ValueError?
  {
    if algo !in Constants.SupportedChecksumAlgorithms then
      Err(ValueError("Unsupported checksum algorith: " + algo + ". Supported: "
                     + Join(Constants.SupportedChecksumAlgorithms, ",")))
    else if kind !in ["digest", "url"] then
      Err(ValueError("Unsupported `kind`: " + kind + ". Suported: `digest` (default) or `url`"))
    else Ok(ChecksumValue(algo, value, kind))
  }

  /** `to_dict()`: exactly the keys algo, value and kind. */
  function ToDict(v: ChecksumValue): (d: map<string, string>)
    ensures d.Keys == {"algo", "value", "kind"}
    ensures d["algo"] == v.algo && d["value"] == v.value && d["kind"] == v.kind
  {
    map["algo" := v.algo, "value" := v.value, "kind" := v.kind]
  }

  /** `Checksum(**d)`: algo and value are required keywords, kind is optional, nothing else is accepted. */
  function FromDict(d: map<string, string>): (r: Result<ChecksumValue>)
    ensures r.Ok? ==> "algo" in d && "value" in d && IsValid(r.value)
    ensures r.Ok? ==> r.value.algo == d["algo"] && r.value.value == d["value"]
    ensures r.Ok? ==> r.value.kind == (if "kind" in d then d["kind"] else "digest")
    ensures r.Err? ==> r.error.TypeError? || r.error.ValueError?
  {
    if !(d.Keys <= {"algo", "value", "kind"}) then Err(TypeError("unexpected keyword argument"))
    else if "algo" !in d || "value" !in d then Err(TypeError("missing required keyword argument"))
    else if "kind" in d then NewChecksum(d["algo"], d["value"], d["kind"])
    else NewChecksum(d["algo"], d["value"])
  }

  /** A checksum survives the `to_dict` / keyword-construction round trip that `File` performs. */
  lemma DictRoundTrip(v: ChecksumValue)
    requires IsValid(v)
    ensures FromDict(ToDict(v)) == Ok(v)
  {
  }

  /**
   * What reading `digest` does: a url-kind checksum fetches its digest from
   * the URL in `value` and becomes digest-kind; a digest-kind one is returned
   * as is. A failed fetch raises and leaves the checksum untouched.
   */
  function DigestStep(v: ChecksumValue, read: string -> Option<string>): (ChecksumValue, Result<string>)
  {
    if v.kind == "url" then
      match read(v.value)
      case Some(d) => (ChecksumValue(v.algo, d, "digest"), Ok(d))
      case None => (v, Err(OSError("unable to read checksum from " + v.value)))
    else (v, Ok(v.value))
  }

  /** A second read of `digest` returns the same text and fetches nothing. */
  lemma DigestIdempotent(v: ChecksumValue, read: string -> Option<string>, read2: string -> Option<string>)
    requires IsValid(v)
    requires DigestStep(v, read).1.Ok?
    ensures DigestStep(v, read).0.kind == "digest"
    ensures DigestStep(v, read).0.value == DigestStep(v, read).1.value
    ensures DigestStep(DigestStep(v, read).0, read2) == (DigestStep(v, read).0, DigestStep(v, read).1)
  {
  }

  /** A digest-kind checksum's digest is its value, whatever the lookup would say. */
  lemma DigestOfDigest(v: ChecksumValue, read: string -> Option<string>)
    requires v.kind == "digest"
    ensures DigestStep(v, read) == (v, Ok(v.value))
  {
  }

  /** The mutable checksum object whose `digest` property flips it to digest-kind. */
  class Checksum {
    var algo: string
    var value: string
    var kind: string

    function Value(): ChecksumValue
      reads this
    {
      ChecksumValue(algo, value, kind)
    }

    constructor (v: ChecksumValue)
      requires IsValid(v)
      ensures Value() == v
    {
      algo := v.algo;
      value := v.value;
      kind := v.kind;
    }

    /** The `digest` property. */
    method Digest(read: string -> Option<string>) returns (r: Result<string>)
      modifies this
      ensures (Value(), r) == DigestStep(old(Value()), read)
    {
      if kind == "url" {
        var fetched := read(value);
        if fetched.None? {
          return Err(OSError("unable to read checksum from " + value));
        }
        value := fetched.value;
        kind := "digest";
      }
      return Ok(value);
    }

    /** `as_aria`: `algo=digest`, in aria2c's format. */
    method AsAria(read: string -> Option<string>) returns (r: Result<string>)
      modifies this
      ensures Value() == DigestStep(old(Value()), read).0
      ensures r.Ok? <==> DigestStep(old(Value()), read).1.Ok?
      ensures r.Ok? ==> r.value == algo + "=" + DigestStep(old(Value()), read).1.value
    {
      var d := Digest(read);
      if d.Err? {
        return Err(d.error);
      }
      return Ok(algo + "=" + d.value);
    }
  }
}
