/** What the handlers do with downloaded image bytes: the size gate of
    `downloadImage`, the magic-number sniffer `detectImageMimeType`, the
    extension table `getFileExtension` and the uploaded file's name. */
module Media {
  import opened Wrappers
  import opened Text
  import Patterns

  /** An element of a Node.js Buffer. */
  type byte = b: int | 0 <= b < 256

  /** `buf[i] === x`. Reading past the end of a Buffer gives `undefined`,
      which is strictly equal to no byte. */
  predicate ByteIs(buf: seq<byte>, i: nat, x: byte)
  {
    i < |buf| && buf[i] == x
  }

  predicate JpegSignature(buf: seq<byte>)
  {
    ByteIs(buf, 0, 0xFF) && ByteIs(buf, 1, 0xD8) && ByteIs(buf, 2, 0xFF)
  }

  /** The first four of the eight bytes of the PNG signature
      (section 5.2 of the W3C PNG specification); the rest are not checked. */
  predicate PngSignature(buf: seq<byte>)
  {
    ByteIs(buf, 0, 0x89) && ByteIs(buf, 1, 0x50) && ByteIs(buf, 2, 0x4E) && ByteIs(buf, 3, 0x47)
  }

  predicate GifSignature(buf: seq<byte>)
  {
    ByteIs(buf, 0, 0x47) && ByteIs(buf, 1, 0x49) && ByteIs(buf, 2, 0x46)
  }

  /** `RIFF`: the container header only; the `WEBP` form type is not checked. */
  predicate RiffSignature(buf: seq<byte>)
  {
    ByteIs(buf, 0, 0x52) && ByteIs(buf, 1, 0x49) && ByteIs(buf, 2, 0x46) && ByteIs(buf, 3, 0x46)
  }

  const Jpeg := "image/jpeg"
  const Png := "image/png"
  const Gif := "image/gif"
  const Webp := "image/webp"
  const MimeTypes: set<string> := {Jpeg, Png, Gif, Webp}

  /** The MIME type the sniffer reports: one of four, JPEG when nothing
      else is recognised (a short buffer included). */
  function DetectImageMimeType(buf: seq<byte>): (mime: string)
    ensures mime in MimeTypes
    ensures mime == Png <==> PngSignature(buf)
    ensures mime == Gif <==> GifSignature(buf)
    ensures mime == Webp <==> RiffSignature(buf)
    ensures mime == Jpeg <==> !PngSignature(buf) && !GifSignature(buf) && !RiffSignature(buf)
  {
    if JpegSignature(buf) then Jpeg
    else if PngSignature(buf) then Png
    else if GifSignature(buf) then Gif
    else if RiffSignature(buf) then Webp
    else Jpeg
  }

  const Extensions: map<string, string> := map[Jpeg := "jpg", Png := "png", Gif := "gif", Webp := "webp"]
  const ExtensionSet: set<string> := {"jpg", "png", "gif", "webp"}

  /** `extensions[mimeType] || 'jpg'`. */
  function GetFileExtension(mimeType: string): (ext: string)
    ensures ext in ExtensionSet
    ensures ext == (if mimeType == Png then "png" else if mimeType == Gif then "gif"
                    else if mimeType == Webp then "webp" else "jpg")
  {
    if mimeType in Extensions && Extensions[mimeType] != "" then Extensions[mimeType] else "jpg"
  }

  /** The extension of a sniffed buffer follows its signature. */
  lemma ExtensionOfDetected(buf: seq<byte>)
    ensures var ext := GetFileExtension(DetectImageMimeType(buf));
      && (PngSignature(buf) ==> ext == "png")
      && (GifSignature(buf) ==> ext == "gif")
      && (RiffSignature(buf) ==> ext == "webp")
      && (!PngSignature(buf) && !GifSignature(buf) && !RiffSignature(buf) ==> ext == "jpg")
  {
  }

  // ---------------------------------------------------------------------
  // The size gate of downloadImage.

  const MiB: nat := 1024 * 1024
  const MaxImageBytes: nat := 5 * MiB
  const DownloadErrorPrefix := "Failed to download image: "
  const TooLargeMessage := "Image size exceeds 5MB limit"

  /** `Buffer.byteLength(data) / (1024 * 1024) > 5`. The division is by a
      power of two, so for every length a Buffer can have the double
      result is the exact quotient modelled here. */
  predicate TooLarge(byteLength: nat)
  {
    (byteLength as real) / (1024.0 * 1024.0) > 5.0
  }

  /** The floating-point gate is the integer test `length > 5 * 2^20`. */
  lemma TooLargeIff(byteLength: nat)
    ensures TooLarge(byteLength) <==> byteLength > MaxImageBytes
  {
    var q := (byteLength as real) / (1024.0 * 1024.0);
    assert q * 1048576.0 == byteLength as real;
  }

  /** What `downloadImage` returns or throws, given what `axios.get` of the
      image returned (its body bytes) or threw (its message). */
  function DownloadImage(fetched: Result<seq<byte>, string>): (r: Result<seq<byte>, string>)
    ensures r.Success? <==> fetched.Success? && |fetched.value| <= MaxImageBytes
    ensures r.Success? ==> r.value == fetched.value
    ensures r.Failure? ==> StartsWith(r.error, DownloadErrorPrefix)
    ensures fetched.Failure? ==> r == Failure(DownloadErrorPrefix + fetched.error)
    ensures fetched.Success? && |fetched.value| > MaxImageBytes ==>
      r == Failure(DownloadErrorPrefix + TooLargeMessage)
  {
    match fetched
    case Failure(m) => Failure(DownloadErrorPrefix + m)
    case Success(data) =>
      TooLargeIff(|data|);
      if TooLarge(|data|) then Failure(DownloadErrorPrefix + TooLargeMessage) else Success(data)
  }

  // ---------------------------------------------------------------------
  // The uploaded file's name.

  const FilenamePrefix := "push-image-"

  /** `push-image-${timestamp}.${extension}`: the timestamp and the
      extension can be read back from the name. */
  function DriveFilename(timestamp: nat, ext: string): (name: string)
    ensures ParseFilename(name) == Some((timestamp, ext))
  {
    var digits := DecimalString(timestamp);
    var name := FilenamePrefix + digits + "." + ext;
    assert name == FilenamePrefix + (digits + "." + ext);
    assert StartsWith(name, FilenamePrefix);
    var rest := name[|FilenamePrefix|..];
    assert rest == digits + "." + ext;
    assert Patterns.NoChar(rest, 0, |digits|, '.');
    Patterns.FindExact(rest, 0, '.', |digits|);
    assert rest[..|digits|] == digits;
    assert rest[|digits| + 1..] == ext;
    DecimalRoundTrip(timestamp);
    name
  }

  /** Reads a name of that form back into its timestamp and extension. */
  function ParseFilename(name: string): Option<(nat, string)>
  {
    if !StartsWith(name, FilenamePrefix) then None
    else
      var rest := name[|FilenamePrefix|..];
      var dot := Patterns.Find(rest, 0, '.');
      if dot == 0 || dot == |rest| || !AllDigits(rest[..dot]) then None
      else Some((DecimalValue(rest[..dot]), rest[dot + 1..]))
  }

  /** Distinct timestamps or extensions give distinct file names. */
  lemma FilenameInjective(t1: nat, e1: string, t2: nat, e2: string)
    requires DriveFilename(t1, e1) == DriveFilename(t2, e2)
    ensures t1 == t2 && e1 == e2
  {
  }
}
