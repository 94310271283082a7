/**
 * The parts of `AmazonS3FileStorage` that do not talk to S3: the multipart
 * chunking loop of `saveFile`, the chunk copy, the object-key layout
 * `YYYY/MM/DD/<id>[.<ext>]`, and the size contract of `saveStream`.
 * Part uploads are recorded instead of sent; the eTag S3 answers with is a
 * function of the uploaded bytes.
 */
module S3Storage {
  import opened Wrappers
  import opened JavaStrings

  // ---------------------------------------------------------------------------
  // Java int arithmetic

  const IntMax: int := 0x7fff_ffff

  /** A value wrapped into Java's 32-bit `int` range. */
  function Int32(x: int): (r: int)
    ensures -IntMax - 1 <= r <= IntMax
    ensures -IntMax - 1 <= x <= IntMax ==> r == x
  {
    var m := (x + IntMax + 1) % 0x1_0000_0000;
    m - IntMax - 1
  }

  function Min(a: int, b: int): int {
    if a <= b then a else b
  }

  /** The end of a chunk as written: `Math.min(filePosition + chunkSize, data.length)` on ints. */
  function WrittenChunkEnd(position: int, chunkSize: int, length: int): int {
    Min(Int32(position + chunkSize), length)
  }

  /** The end of a chunk with the sum taken without overflow. */
  function ChunkEnd(position: int, chunkSize: int, length: int): int {
    Min(position + chunkSize, length)
  }

  /**
   * With an 8 MiB chunk and an array longer than 255 chunks (up to
   * `Integer.MAX_VALUE - 8` bytes, the largest array a JVM hands out, or any
   * length to `Integer.MAX_VALUE`), the 256th chunk starts at 255 * 8 MiB,
   * below the length, and the int sum wraps: the end lies before the start.
   * `end - start` wraps back to one chunk, so `getChunkBytes` allocates 8 MiB,
   * but the copy of one chunk from the start runs past the end of the data,
   * and `System.arraycopy` throws an IndexOutOfBoundsException.
   */
  lemma WrittenChunkEndOverflows(length: int)
    requires 255 * (8 * 1024 * 1024) < length <= IntMax
    ensures var chunk := 8 * 1024 * 1024;
            var position := 255 * chunk;
            var end := WrittenChunkEnd(position, chunk, length);
            position < length && end < position &&
            Int32(end - position) == chunk && position + Int32(end - position) > length
  {
  }

  /** The corrected end always lies after the start, within the data and within one chunk. */
  lemma ChunkEndInRange(position: int, chunkSize: int, length: int)
    requires 0 <= position < length && chunkSize > 0
    ensures position < ChunkEnd(position, chunkSize, length) <= length
    ensures ChunkEnd(position, chunkSize, length) - position <= chunkSize
    ensures ChunkEnd(position, chunkSize, length) < length ==> ChunkEnd(position, chunkSize, length) - position == chunkSize
  {
  }

  // ---------------------------------------------------------------------------
  // Chunking

  /** One `uploadPart` call: the part number and the bytes sent. */
  datatype Upload = Upload(partNumber: nat, bytes: seq<bv8>)

  /** A `CompletedPart` of the final `completeMultipartUpload` request. */
  datatype CompletedPart = CompletedPart(partNumber: nat, eTag: string)

  /** The bytes of all uploads, in order. */
  function Flatten(uploads: seq<Upload>): seq<bv8>
    decreases |uploads|
  {
    if uploads == [] then [] else Flatten(uploads[..|uploads| - 1]) + uploads[|uploads| - 1].bytes
  }

  lemma FlattenAppend(uploads: seq<Upload>, u: Upload)
    ensures Flatten(uploads + [u]) == Flatten(uploads) + u.bytes
  {
    assert (uploads + [u])[..|uploads|] == uploads;
  }

  /** `getChunkBytes`: a fresh array holding `data[start..end)`. */
  method GetChunkBytes(data: array<bv8>, start: int, end: int) returns (chunk: array<bv8>)
    requires 0 <= start <= end <= data.Length
    ensures fresh(chunk)
    ensures chunk[..] == data[start..end]
  {
    chunk := new bv8[end - start];
    for k := 0 to end - start
      invariant forall j :: 0 <= j < k ==> chunk[j] == data[start + j]
    {
      chunk[k] := data[start + k];
    }
  }

  /**
   * The loop of `saveFile`: parts numbered from 1, each `data[pos, min(pos + chunkSize, len))`,
   * with `pos` advancing by `chunkSize`; the sum is taken without overflow.
   */
  method SaveFileParts(data: array<bv8>, chunkSize: int, eTagOf: seq<bv8> -> string)
    returns (uploads: seq<Upload>, completedParts: seq<CompletedPart>)
    requires chunkSize > 0
    ensures Flatten(uploads) == data[..]
    ensures forall k :: 0 <= k < |uploads| ==> uploads[k].partNumber == k + 1
    ensures forall k :: 0 <= k < |uploads| - 1 ==> |uploads[k].bytes| == chunkSize
    ensures uploads != [] ==> 0 < |uploads[|uploads| - 1].bytes| <= chunkSize
    ensures uploads == [] <==> data.Length == 0
    ensures |completedParts| == |uploads| &&
      forall k :: 0 <= k < |uploads| ==>
        completedParts[k] == CompletedPart(uploads[k].partNumber, eTagOf(uploads[k].bytes))
  {
    uploads := [];
    completedParts := [];
    var filePosition := 0;
    var i := 1;
    while filePosition < data.Length
      invariant 0 <= filePosition && i == |uploads| + 1
      invariant uploads == [] <==> filePosition == 0
      invariant Flatten(uploads) == data[..Min(filePosition, data.Length)]
      invariant forall k :: 0 <= k < |uploads| ==> uploads[k].partNumber == k + 1
      invariant forall k :: 0 <= k < |uploads| - 1 ==> |uploads[k].bytes| == chunkSize
      invariant uploads != [] ==> 0 < |uploads[|uploads| - 1].bytes| <= chunkSize
      invariant uploads != [] && filePosition < data.Length ==> |uploads[|uploads| - 1].bytes| == chunkSize
      invariant |completedParts| == |uploads| &&
        forall k :: 0 <= k < |uploads| ==>
          completedParts[k] == CompletedPart(uploads[k].partNumber, eTagOf(uploads[k].bytes))
      decreases data.Length - filePosition
    {
      var endChunkPosition := ChunkEnd(filePosition, chunkSize, data.Length);
      ChunkEndInRange(filePosition, chunkSize, data.Length);
      var chunkBytes := GetChunkBytes(data, filePosition, endChunkPosition);
      var u := Upload(i, chunkBytes[..]);
      FlattenAppend(uploads, u);
      assert data[..filePosition] + data[filePosition..endChunkPosition] == data[..endChunkPosition];
      uploads := uploads + [u];
      completedParts := completedParts + [CompletedPart(i, eTagOf(u.bytes))];
      filePosition := filePosition + chunkSize;
      i := i + 1;
    }
    assert data[..data.Length] == data[..];
  }

  // ---------------------------------------------------------------------------
  // Object keys

  /** The calendar fields of a descriptor's create date, with a 1-based month. */
  datatype Date = Date(year: nat, month: nat, day: nat)

  function TwoDigits(n: nat): string {
    LeftPad(NatToString(n), 2, '0')
  }

  /** `getStorageDir`: `"<year>/<MM>/<DD>"`. */
  function StorageDir(d: Date): string {
    NatToString(d.year) + "/" + TwoDigits(d.month) + "/" + TwoDigits(d.day)
  }

  /** `getFileName`: the id, with `"." + extension` appended when the extension is not blank. */
  function FileName(id: string, extension: Option<string>): string {
    if !IsBlank(extension) then id + "." + extension.value else id
  }

  /** `resolveFileName`: the object key. */
  function ResolveFileName(d: Date, id: string, extension: Option<string>): string {
    StorageDir(d) + "/" + FileName(id, extension)
  }

  lemma {:induction false} DigitsHaveNoSlash(s: string)
    requires forall i :: 0 <= i < |s| ==> IsDigit(s[i])
    ensures '/' !in s
  {
  }

  /** A one- or two-digit number is printed as exactly two digits that read back as the number. */
  lemma TwoDigitsRoundTrip(n: nat)
    requires n < 100
    ensures |TwoDigits(n)| == 2
    ensures forall i :: 0 <= i < 2 ==> IsDigit(TwoDigits(n)[i])
    ensures DecimalValue(TwoDigits(n)) == n
  {
    var s := NatToString(n);
    DecimalRoundTrip(n);
    if n < 10 {
      assert TwoDigits(n) == ['0'] + s;
      LeadingZero(s);
    } else {
      assert n / 10 < 10;
    }
  }

  predicate AllDigits(s: string) {
    forall i :: 0 <= i < |s| ==> IsDigit(s[i])
  }

  /** Reads an object key back: a year, a two-digit month and day, and the file name. */
  function ParseObjectKey(key: string): Option<(Date, string)> {
    var parts := SplitOn(key, '/');
    if |parts| == 4 && AllDigits(parts[0]) && |parts[1]| == 2 && AllDigits(parts[1]) &&
       |parts[2]| == 2 && AllDigits(parts[2])
    then Some((Date(DecimalValue(parts[0]), DecimalValue(parts[1]), DecimalValue(parts[2])), parts[3]))
    else None
  }

  /**
   * The object key is `year/MM/DD/fileName` with fixed-width month and day:
   * it reads back to the create date and the file name.
   */
  lemma ObjectKeyRoundTrip(d: Date, id: string, extension: Option<string>)
    requires 1 <= d.month <= 12 && 1 <= d.day <= 31
    requires '/' !in id && (extension.Some? ==> '/' !in extension.value)
    ensures ParseObjectKey(ResolveFileName(d, id, extension)) == Some((d, FileName(id, extension)))
  {
    var y, mm, dd, f := NatToString(d.year), TwoDigits(d.month), TwoDigits(d.day), FileName(id, extension);
    KeyFromParts(d, id, extension);
    DateFieldsReadBack(d);
    FileNameHasNoSlash(id, extension);
    ParseJoined([y, mm, dd, f]);
  }

  lemma KeyFromParts(d: Date, id: string, extension: Option<string>)
    ensures ResolveFileName(d, id, extension) ==
      Join([NatToString(d.year), TwoDigits(d.month), TwoDigits(d.day), FileName(id, extension)], '/')
  {
    JoinFour(NatToString(d.year), TwoDigits(d.month), TwoDigits(d.day), FileName(id, extension));
  }

  lemma DateFieldsReadBack(d: Date)
    requires 1 <= d.month <= 12 && 1 <= d.day <= 31
    ensures AllDigits(NatToString(d.year)) && DecimalValue(NatToString(d.year)) == d.year
    ensures |TwoDigits(d.month)| == 2 && AllDigits(TwoDigits(d.month)) && DecimalValue(TwoDigits(d.month)) == d.month
    ensures |TwoDigits(d.day)| == 2 && AllDigits(TwoDigits(d.day)) && DecimalValue(TwoDigits(d.day)) == d.day
    ensures '/' !in NatToString(d.year) && '/' !in TwoDigits(d.month) && '/' !in TwoDigits(d.day)
  {
    TwoDigitsRoundTrip(d.month);
    TwoDigitsRoundTrip(d.day);
    DecimalRoundTrip(d.year);
    DigitsHaveNoSlash(NatToString(d.year));
    DigitsHaveNoSlash(TwoDigits(d.month));
    DigitsHaveNoSlash(TwoDigits(d.day));
  }

  lemma ParseJoined(parts: seq<string>)
    requires |parts| == 4 && forall k :: 0 <= k < 4 ==> '/' !in parts[k]
    ensures ParseObjectKey(Join(parts, '/')) ==
      if AllDigits(parts[0]) && |parts[1]| == 2 && AllDigits(parts[1]) && |parts[2]| == 2 && AllDigits(parts[2])
      then Some((Date(DecimalValue(parts[0]), DecimalValue(parts[1]), DecimalValue(parts[2])), parts[3]))
      else None
  {
    SplitJoin(parts, '/');
  }

  lemma FileNameHasNoSlash(id: string, extension: Option<string>)
    requires '/' !in id && (extension.Some? ==> '/' !in extension.value)
    ensures '/' !in FileName(id, extension)
  {
  }

  lemma JoinFour(a: string, b: string, c: string, d: string)
    ensures Join([a, b, c, d], '/') == a + "/" + b + "/" + c + "/" + d
  {
    var parts := [a, b, c, d];
    assert parts[..3] == [a, b, c];
    assert [a, b, c][..2] == [a, b];
    assert [a, b][..1] == [a];
    assert Join([a], '/') == a;
    assert Join([a, b], '/') == a + "/" + b;
    assert Join([a, b, c], '/') == a + "/" + b + "/" + c;
  }

  // ---------------------------------------------------------------------------
  // saveStream

  datatype StorageError = NullArgument | IoException(message: string)

  /**
   * `saveStream`: a null descriptor size is refused before anything is read;
   * a stream that cannot be read gives an IO_EXCEPTION naming the file; otherwise
   * the descriptor's size is returned, whatever the number of bytes read.
   * `content` is None when reading the stream throws.
   */
  function SaveStream(size: Option<int>, content: Option<seq<bv8>>, id: string, extension: Option<string>):
    (r: Result<int, StorageError>)
    ensures r.Ok? <==> size.Some? && content.Some?
    ensures r.Ok? ==> r.value == size.value
    ensures size.None? ==> r == Err(NullArgument)
    ensures size.Some? && content.None? ==>
      (r.Err? && r.error.IoException? && EndsWith(r.error.message, FileName(id, extension) + "."))
  {
    if size.None? then Err(NullArgument)
    else if content.None? then Err(IoException("Could not save file " + FileName(id, extension) + "."))
    else Ok(size.value)
  }
}
