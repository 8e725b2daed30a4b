/** The uploaded-file record of the upload page, the file handle it is built
    from, the media-kind classification by MIME prefix and the decimal id. */
module Records {

  /** The two media kinds a card can show. */
  datatype MediaKind = Image | Video

  /** One entry of the in-memory list of uploaded files.  `size` is the
      already formatted size ("2.00 MB") and `url` the blob URL the browser
      handed out; both are kept as opaque strings. */
  datatype FileRecord = FileRecord(
    id: string,
    name: string,
    size: string,
    kind: MediaKind,
    isPrivate: bool,
    url: string)

  /** What the page reads from a dropped file handle: its name, its size as
      the page formats it, its MIME type as the browser reports it (possibly
      empty), and the object URL the browser creates for it. */
  datatype SourceFile = SourceFile(
    name: string,
    size: string,
    mimeType: string,
    objectUrl: string)

  /** The MIME prefix that makes a file an image. */
  const ImageMimePrefix: string := "image/"

  /** A record's media kind: `image` when the MIME type starts with
      "image/" (a case-sensitive, character-by-character prefix test, as
      JavaScript's `startsWith` does), `video` for everything else: the
      first six characters are "image/" exactly for images. */
  function Classify(mimeType: string): (k: MediaKind)
    ensures k == Image <==> |mimeType| >= 6 && mimeType[..6] == "image/"
  {
    if ImageMimePrefix <= mimeType then Image else Video
  }

  /** Representative MIME strings: the empty type, a bare "image", upper-case
      spellings and non-image types are all classified as video. */
  lemma ClassifyExamples()
    ensures Classify("image/png") == Image
    ensures Classify("image/") == Image
    ensures Classify("") == Video
    ensures Classify("image") == Video
    ensures Classify("Image/png") == Video
    ensures Classify("video/mp4") == Video
    ensures Classify("application/pdf") == Video
  {
    assert "image/png"[..6] == ImageMimePrefix;
    assert "Image/png"[0] != ImageMimePrefix[0];
  }

  // Decimal digits, as JavaScript's String() writes a non-negative integer.

  predicate IsDigit(c: char)
  {
    '0' <= c <= '9'
  }

  predicate IsDecimal(s: string)
  {
    forall i :: 0 <= i < |s| ==> IsDigit(s[i])
  }

  function DigitChar(d: nat): (c: char)
    requires d < 10
    ensures IsDigit(c) && c as int - '0' as int == d
  {
    (d + '0' as int) as char
  }

  function DigitValue(c: char): (d: nat)
    requires IsDigit(c)
    ensures d < 10
  {
    c as int - '0' as int
  }

  /** The decimal string of `n`: at least one digit, only digits, and no
      leading zero unless the number is zero itself. */
  function DecimalString(n: nat): (s: string)
    ensures |s| >= 1 && IsDecimal(s)
    ensures s[0] == '0' ==> s == "0"
    decreases n
  {
    if n < 10 then [DigitChar(n)] else DecimalString(n / 10) + [DigitChar(n % 10)]
  }

  /** The number a string of digits denotes (the inverse of DecimalString). */
  function DecimalValue(s: string): (n: nat)
    requires IsDecimal(s)
    decreases |s|
  {
    if s == [] then 0 else DecimalValue(s[..|s| - 1]) * 10 + DigitValue(s[|s| - 1])
  }

  /** Reading back the digits of `n` gives `n`. */
  lemma {:induction false} DecimalRoundTrip(n: nat)
    ensures DecimalValue(DecimalString(n)) == n
    decreases n
  {
    if n >= 10 {
      var s := DecimalString(n);
      assert s[..|s| - 1] == DecimalString(n / 10);
      DecimalRoundTrip(n / 10);
    }
  }

  /** Different numbers have different decimal strings. */
  lemma DecimalStringInjective(m: nat, n: nat)
    requires DecimalString(m) == DecimalString(n)
    ensures m == n
  {
    DecimalRoundTrip(m);
    DecimalRoundTrip(n);
  }

  /** The id of the file at position `index` of a drop, when the clock read
      `now` milliseconds in that file's iteration: the plain decimal string
      of the sum `now + index`, which reads back as that sum. */
  function RecordId(now: nat, index: nat): (id: string)
    ensures |id| >= 1 && IsDecimal(id) && (id[0] == '0' ==> id == "0")
    ensures DecimalValue(id) == now + index
  {
    DecimalRoundTrip(now + index);
    DecimalString(now + index)
  }

  /** Within one drop a file later than another never shares its id, as
      long as the clock did not step back between their two readings. */
  lemma RecordIdsDistinctInBatch(ti: nat, i: nat, tj: nat, j: nat)
    requires i < j && ti <= tj
    ensures RecordId(ti, i) != RecordId(tj, j)
  {
  }

  /** A clock that steps back one millisecond between two iterations of one
      drop gives files 0 and 1 the same id; so does a second drop one
      millisecond after the first. */
  lemma RecordIdCollides(now: nat)
    ensures RecordId(now + 1, 0) == RecordId(now, 1)
  {
  }

  /** The record built from `file`, which sits at position `index` of a drop
      and read the clock as `now`.  It starts public, keeps the file's name,
      size and URL, takes its kind from the MIME prefix and its id from the
      clock plus the index, written as plain decimal digits. */
  function MakeRecord(file: SourceFile, now: nat, index: nat): (r: FileRecord)
    ensures !r.isPrivate
    ensures r.name == file.name && r.size == file.size && r.url == file.objectUrl
    ensures r.kind == Image <==> ImageMimePrefix <= file.mimeType
    ensures |r.id| >= 1 && IsDecimal(r.id) && (r.id[0] == '0' ==> r.id == "0")
    ensures DecimalValue(r.id) == now + index
  {
    FileRecord(RecordId(now, index), file.name, file.size, Classify(file.mimeType), false, file.objectUrl)
  }
}
