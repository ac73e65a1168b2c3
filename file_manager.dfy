/** The logic of FileManager.kt that does not touch the disk: the name of a
    copied photo, the path the copy returns, the dimension fallback and the
    accounting of the batch gallery deletion. The copy, the decode, the
    content-resolver deletes and the delete-request creation are oracles:
    their outcomes are parameters. */
module FileManager {
  import opened Records

  /** `PHOTOS_DIRECTORY` */
  const PhotosDirectoryName: string := "PhotoVault"

  // ---- Decimal text ----

  function DigitChar(d: nat): char
    requires d < 10
  {
    "0123456789"[d]
  }

  predicate IsDigit(c: char) {
    '0' <= c <= '9'
  }

  /** The value of a digit character; other characters count as 0. */
  function DigitValue(c: char): nat
  {
    if IsDigit(c) then (c as int - '0' as int) as nat else 0
  }

  /** The decimal digits of `n`, without leading zeros. */
  function Digits(n: nat): (s: string)
    ensures |s| >= 1
    ensures forall i :: 0 <= i < |s| ==> IsDigit(s[i])
    decreases n
  {
    if n < 10 then [DigitChar(n)] else Digits(n / 10) + [DigitChar(n % 10)]
  }

  /** The number a string of digits denotes. */
  function Value(s: string): nat
    decreases |s|
  {
    if s == [] then 0 else Value(s[..|s| - 1]) * 10 + DigitValue(s[|s| - 1])
  }

  function Zeros(n: nat): (s: string)
    ensures |s| == n && forall i :: 0 <= i < n ==> s[i] == '0'
  {
    seq(n, i => '0')
  }

  /** A field of a SimpleDateFormat pattern of `width` letters: the number,
      zero-padded on the left to at least that width. */
  function Pad(n: nat, width: nat): (s: string)
    ensures |s| >= 1
    ensures forall i :: 0 <= i < |s| ==> IsDigit(s[i])
  {
    var d := Digits(n);
    if |d| < width then Zeros(width - |d|) + d else d
  }

  function Pow10(k: nat): (p: nat)
    ensures p >= 1
  {
    if k == 0 then 1 else 10 * Pow10(k - 1)
  }

  lemma {:induction false} DigitsValue(n: nat)
    ensures Value(Digits(n)) == n
    decreases n
  {
    if n >= 10 {
      var d := Digits(n);
      assert d[..|d| - 1] == Digits(n / 10);
      DigitsValue(n / 10);
    }
  }

  lemma {:induction false} DigitsLength(n: nat, w: nat)
    requires w >= 1 && n < Pow10(w)
    ensures |Digits(n)| <= w
    decreases w
  {
    if n >= 10 {
      DigitsLength(n / 10, w - 1);
    }
  }

  lemma {:induction false} FourDigits(n: nat)
    requires 1000 <= n <= 9999
    ensures |Digits(n)| == 4
  {
    var a := n / 10;
    var b := a / 10;
    var c := b / 10;
    assert 100 <= a <= 999 && 10 <= b <= 99 && 1 <= c <= 9;
    assert |Digits(c)| == 1;
    assert |Digits(b)| == 2;
    assert |Digits(a)| == 3;
  }

  /** Leading zeros do not change the value. */
  lemma {:induction false} ZerosValue(z: nat, s: string)
    ensures Value(Zeros(z) + s) == Value(s)
    decreases |s|
  {
    if s == [] {
      ZerosValueZero(z);
      assert Zeros(z) + s == Zeros(z);
    } else {
      var t := Zeros(z) + s;
      assert t[..|t| - 1] == Zeros(z) + s[..|s| - 1];
      ZerosValue(z, s[..|s| - 1]);
    }
  }

  lemma {:induction false} ZerosValueZero(z: nat)
    ensures Value(Zeros(z)) == 0
    decreases z
  {
    if z > 0 {
      assert Zeros(z)[..z - 1] == Zeros(z - 1);
      ZerosValueZero(z - 1);
    }
  }

  /** A padded field has exactly its width when the number fits, and it
      reads back as the number. */
  lemma PadFacts(n: nat, width: nat)
    requires width >= 1 && n < Pow10(width)
    ensures |Pad(n, width)| == width
    ensures Value(Pad(n, width)) == n
  {
    DigitsLength(n, width);
    DigitsValue(n);
    if |Digits(n)| < width {
      ZerosValue(width - |Digits(n)|, Digits(n));
    }
  }

  // ---- File names ----

  /** The calendar fields of `Date()` in the device's clock. */
  datatype Timestamp = Timestamp(year: nat, month: nat, day: nat, hour: nat, minute: nat, second: nat)

  predicate WellFormed(t: Timestamp) {
    t.year <= 9999 && 1 <= t.month <= 12 && 1 <= t.day <= 31 && t.hour <= 23 && t.minute <= 59 && t.second <= 59
  }

  lemma PadNoSlash(n: nat, width: nat)
    ensures '/' !in Pad(n, width)
  {
    var s := Pad(n, width);
    forall i | 0 <= i < |s| ensures s[i] != '/' { assert IsDigit(s[i]); }
  }

  /** `SimpleDateFormat("yyyyMMdd_HHmmss", Locale.US).format(...)` */
  function FormatTimestamp(t: Timestamp): (s: string)
    ensures '/' !in s
  {
    var s := Pad(t.year, 4) + Pad(t.month, 2) + Pad(t.day, 2) + "_" + Pad(t.hour, 2) + Pad(t.minute, 2) + Pad(t.second, 2);
    PadNoSlash(t.year, 4);
    PadNoSlash(t.month, 2);
    PadNoSlash(t.day, 2);
    PadNoSlash(t.hour, 2);
    PadNoSlash(t.minute, 2);
    PadNoSlash(t.second, 2);
    assert '/' !in "_";
    s
  }

  /** `generateUniqueFileName`: "IMG_" + timestamp + "_" + random + ".jpg",
      with `random` drawn from 1000..9999. */
  function GenerateUniqueFileName(t: Timestamp, random: int): (name: string)
    requires 1000 <= random <= 9999
    ensures '/' !in name
    ensures |name| == |FormatTimestamp(t)| + 13
    ensures name[..4] == "IMG_" && name[|name| - 4..] == ".jpg"
    ensures name[|name| - 9] == '_'
    ensures forall i :: |name| - 8 <= i < |name| - 4 ==> IsDigit(name[i])
    ensures Value(name[|name| - 8..|name| - 4]) == random
  {
    var r := Digits(random);
    FourDigits(random);
    DigitsValue(random);
    var head := "IMG_" + FormatTimestamp(t) + "_";
    var body := head + r;
    var name := body + ".jpg";
    assert '/' !in r by {
      forall i | 0 <= i < |r| ensures r[i] != '/' { assert IsDigit(r[i]); }
    }
    assert '/' !in "IMG_" && '/' !in "_" && '/' !in ".jpg";
    assert name[|body|..] == ".jpg";
    assert body[|head|..] == r;
    assert name[|head|..|body|] == r;
    assert name[..4] == head[..4] == "IMG_";
    name
  }

  /** For a well-formed clock reading the name has a fixed layout, and the
      timestamp fields and the random number read back from it: two copies
      can share a name only if they share the second and the number. */
  lemma FileNameRoundTrip(t: Timestamp, random: int)
    requires WellFormed(t) && 1000 <= random <= 9999
    ensures |GenerateUniqueFileName(t, random)| == 28
    ensures Value(GenerateUniqueFileName(t, random)[4..8]) == t.year
    ensures Value(GenerateUniqueFileName(t, random)[8..10]) == t.month
    ensures Value(GenerateUniqueFileName(t, random)[10..12]) == t.day
    ensures Value(GenerateUniqueFileName(t, random)[13..15]) == t.hour
    ensures Value(GenerateUniqueFileName(t, random)[15..17]) == t.minute
    ensures Value(GenerateUniqueFileName(t, random)[17..19]) == t.second
  {
    TimestampLayout(t);
    FourDigits(random);
    NameLayout(FormatTimestamp(t), Digits(random));
  }

  /** Where the timestamp sits in "IMG_" + ts + "_" + r + ".jpg". */
  lemma NameLayout(ts: string, r: string)
    requires |ts| == 15 && |r| == 4
    ensures |"IMG_" + ts + "_" + r + ".jpg"| == 28
    ensures ("IMG_" + ts + "_" + r + ".jpg")[4..8] == ts[0..4]
    ensures ("IMG_" + ts + "_" + r + ".jpg")[8..10] == ts[4..6]
    ensures ("IMG_" + ts + "_" + r + ".jpg")[10..12] == ts[6..8]
    ensures ("IMG_" + ts + "_" + r + ".jpg")[13..15] == ts[9..11]
    ensures ("IMG_" + ts + "_" + r + ".jpg")[15..17] == ts[11..13]
    ensures ("IMG_" + ts + "_" + r + ".jpg")[17..19] == ts[13..15]
  {
  }

  /** Where each field sits in a formatted well-formed timestamp. */
  lemma TimestampLayout(t: Timestamp)
    requires WellFormed(t)
    ensures |FormatTimestamp(t)| == 15
    ensures Value(FormatTimestamp(t)[0..4]) == t.year
    ensures Value(FormatTimestamp(t)[4..6]) == t.month
    ensures Value(FormatTimestamp(t)[6..8]) == t.day
    ensures FormatTimestamp(t)[8] == '_'
    ensures Value(FormatTimestamp(t)[9..11]) == t.hour
    ensures Value(FormatTimestamp(t)[11..13]) == t.minute
    ensures Value(FormatTimestamp(t)[13..15]) == t.second
  {
    assert Pow10(2) == 100 && Pow10(4) == 10000;
    PadFacts(t.year, 4);
    PadFacts(t.month, 2);
    PadFacts(t.day, 2);
    PadFacts(t.hour, 2);
    PadFacts(t.minute, 2);
    PadFacts(t.second, 2);
    FieldLayout(Pad(t.year, 4), Pad(t.month, 2), Pad(t.day, 2), Pad(t.hour, 2), Pad(t.minute, 2), Pad(t.second, 2));
  }

  /** Where the six fields sit in "yyyyMMdd_HHmmss". */
  lemma FieldLayout(y: string, mo: string, d: string, h: string, mi: string, se: string)
    requires |y| == 4 && |mo| == 2 && |d| == 2 && |h| == 2 && |mi| == 2 && |se| == 2
    ensures |y + mo + d + "_" + h + mi + se| == 15
    ensures (y + mo + d + "_" + h + mi + se)[0..4] == y
    ensures (y + mo + d + "_" + h + mi + se)[4..6] == mo
    ensures (y + mo + d + "_" + h + mi + se)[6..8] == d
    ensures (y + mo + d + "_" + h + mi + se)[8] == '_'
    ensures (y + mo + d + "_" + h + mi + se)[9..11] == h
    ensures (y + mo + d + "_" + h + mi + se)[11..13] == mi
    ensures (y + mo + d + "_" + h + mi + se)[13..15] == se
  {
  }

  /** `File(dir, name)` as a path string. */
  function JoinPath(dir: string, name: string): string {
    dir + "/" + name
  }

  /** `File(path).name`: the text after the last '/'. */
  function FileName(path: string): (r: string)
    ensures '/' !in r
    ensures |r| <= |path| && r == path[|path| - |r|..]
    decreases |path|
  {
    if path == [] || path[|path| - 1] == '/' then []
    else FileName(path[..|path| - 1]) + [path[|path| - 1]]
  }

  lemma {:induction false} FileNameOfJoin(dir: string, name: string)
    requires '/' !in name
    ensures FileName(JoinPath(dir, name)) == name
    decreases |name|
  {
    var p := JoinPath(dir, name);
    if name != [] {
      assert p[..|p| - 1] == JoinPath(dir, name[..|name| - 1]);
      FileNameOfJoin(dir, name[..|name| - 1]);
    } else {
      assert p[|p| - 1] == '/';
    }
  }

  /** `photosDirectory`: `<external files dir>/PhotoVault`. */
  function PhotosDirectory(externalFilesDir: string): string {
    JoinPath(externalFilesDir, PhotosDirectoryName)
  }

  /** How the copy went: the stream was copied, the resolver returned no
      stream (nothing is written but the path is still returned), or a step
      threw. */
  datatype CopyOutcome = Copied | NoInputStream | CopyThrew

  /** `copyPhotoToAppStorage`: `<photos dir>/<album>/<generated name>`, or
      null when a step threw. */
  function CopyPhotoToAppStorage(externalFilesDir: string, albumName: string, t: Timestamp,
                                 random: int, outcome: CopyOutcome): (r: Option<string>)
    requires 1000 <= random <= 9999
    ensures r.None? <==> outcome == CopyThrew
    ensures r.Some? ==> r.value == JoinPath(JoinPath(PhotosDirectory(externalFilesDir), albumName), GenerateUniqueFileName(t, random))
    ensures r.Some? ==> FileName(r.value) == GenerateUniqueFileName(t, random)
    ensures r.Some? ==> (|r.value| > |PhotosDirectory(externalFilesDir)| &&
                         r.value[..|PhotosDirectory(externalFilesDir)| + 1] == PhotosDirectory(externalFilesDir) + "/")
  {
    if outcome == CopyThrew then None
    else
      var name := GenerateUniqueFileName(t, random);
      var dir := PhotosDirectory(externalFilesDir);
      var path := JoinPath(JoinPath(dir, albumName), name);
      FileNameOfJoin(JoinPath(dir, albumName), name);
      JoinKeepsDirectory(dir, albumName, name);
      Some(path)
  }

  lemma JoinKeepsDirectory(dir: string, sub: string, name: string)
    ensures |JoinPath(JoinPath(dir, sub), name)| > |dir|
    ensures JoinPath(JoinPath(dir, sub), name)[..|dir| + 1] == dir + "/"
  {
    assert JoinPath(JoinPath(dir, sub), name) == (dir + "/") + (sub + "/" + name);
  }

  // ---- Image dimensions ----

  /** What reading the bounds of the file gave: the decoder's
      `outWidth`/`outHeight`, or an exception. */
  datatype DecodeOutcome = Bounds(width: int, height: int) | DecodeThrew

  /** `getImageDimensions`: the decoded bounds, or (0, 0) when decoding
      threw. */
  function ImageDimensions(decode: DecodeOutcome): (r: (int, int))
    ensures decode.DecodeThrew? ==> r == (0, 0)
    ensures decode.Bounds? ==> r == (decode.width, decode.height)
  {
    match decode
    case Bounds(w, h) => (w, h)
    case DecodeThrew => (0, 0)
  }

  // ---- Batch gallery deletion ----

  /** What `contentResolver.delete(uri)` did for one uri. */
  datatype DirectDelete = RowsDeleted(rows: int) | SecurityFailure | OtherFailure

  /** What `MediaStore.createDeleteRequest` gave for the remaining uris. */
  datatype DeleteRequest = SenderCreated | SenderNull | RequestThrew

  datatype FailReason = IntentSenderNull | BatchRequestFailed

  /** `BatchGalleryDeletionResult`. `PermissionRequired` carries the uris
      the one delete request covers. */
  datatype BatchResult =
    | Success(deletedCount: nat, failedCount: nat)
    | Failed(reason: FailReason)
    | PermissionRequired(uris: seq<string>)

  predicate Deleted(d: DirectDelete) {
    d.RowsDeleted? && d.rows > 0
  }

  /** The uris the direct loop could not delete, in their order. */
  function Remaining(uris: seq<string>, outcomes: seq<DirectDelete>): (r: seq<string>)
    requires |outcomes| == |uris|
    ensures |r| <= |uris|
    decreases |uris|
  {
    if uris == [] then []
    else
      var rest := Remaining(uris[..|uris| - 1], outcomes[..|uris| - 1]);
      if Deleted(outcomes[|uris| - 1]) then rest else rest + [uris[|uris| - 1]]
  }

  /** How many uris the direct loop deleted. */
  function DeletedCount(outcomes: seq<DirectDelete>): (n: nat)
    ensures n <= |outcomes|
    decreases |outcomes|
  {
    if outcomes == [] then 0
    else DeletedCount(outcomes[..|outcomes| - 1]) + (if Deleted(outcomes[|outcomes| - 1]) then 1 else 0)
  }

  /** Every uri is either counted as deleted or kept as remaining, once. */
  lemma {:induction false} EachUriCountedOnce(uris: seq<string>, outcomes: seq<DirectDelete>)
    requires |outcomes| == |uris|
    ensures DeletedCount(outcomes) + |Remaining(uris, outcomes)| == |uris|
    ensures forall u :: u in Remaining(uris, outcomes) ==>
              exists i :: 0 <= i < |uris| && uris[i] == u && !Deleted(outcomes[i])
    decreases |uris|
  {
    if uris != [] {
      var n := |uris| - 1;
      EachUriCountedOnce(uris[..n], outcomes[..n]);
      forall u | u in Remaining(uris, outcomes)
        ensures exists i :: 0 <= i < |uris| && uris[i] == u && !Deleted(outcomes[i])
      {
        if u in Remaining(uris[..n], outcomes[..n]) {
          var i :| 0 <= i < n && uris[..n][i] == u && !Deleted(outcomes[..n][i]);
          assert uris[i] == u && outcomes[i] == outcomes[..n][i];
        } else {
          assert uris[n] == u && !Deleted(outcomes[n]);
        }
      }
    }
  }

  /** The classification after the direct loop. */
  function Classify(successCount: nat, remaining: seq<string>, request: DeleteRequest): (r: BatchResult)
    ensures remaining == [] ==> r == Success(successCount, 0)
    ensures remaining != [] && request == SenderCreated ==> r == PermissionRequired(remaining)
    ensures remaining != [] && request == SenderNull ==> r == Failed(IntentSenderNull)
    ensures remaining != [] && request == RequestThrew ==>
              r == if successCount > 0 then Success(successCount, |remaining|) else Failed(BatchRequestFailed)
  {
    if remaining == [] then Success(successCount, 0)
    else
      match request
      case SenderCreated => PermissionRequired(remaining)
      case SenderNull => Failed(IntentSenderNull)
      case RequestThrew => if successCount > 0 then Success(successCount, |remaining|) else Failed(BatchRequestFailed)
  }

  /** `deleteMultiplePhotosFromGalleryWithFallback`: delete each uri
      directly, keep the ones that fail, then classify. */
  method DeleteMultiplePhotosFromGallery(uris: seq<string>, outcomes: seq<DirectDelete>, request: DeleteRequest)
    returns (result: BatchResult)
    requires |outcomes| == |uris|
    ensures result == Classify(DeletedCount(outcomes), Remaining(uris, outcomes), request)
  {
    var successCount := 0;
    var remainingUris: seq<string> := [];
    var i := 0;
    while i < |uris|
      invariant 0 <= i <= |uris|
      invariant successCount == DeletedCount(outcomes[..i])
      invariant remainingUris == Remaining(uris[..i], outcomes[..i])
    {
      assert uris[..i + 1][..i] == uris[..i];
      assert outcomes[..i + 1][..i] == outcomes[..i];
      match outcomes[i] {
        case RowsDeleted(rows) =>
          if rows > 0 {
            successCount := successCount + 1;
          } else {
            remainingUris := remainingUris + [uris[i]];
          }
        case SecurityFailure =>
          remainingUris := remainingUris + [uris[i]];
        case OtherFailure =>
          remainingUris := remainingUris + [uris[i]];
      }
      i := i + 1;
    }
    assert uris[..i] == uris && outcomes[..i] == outcomes;
    if |remainingUris| == 0 {
      return Success(successCount, 0);
    }
    match request
    case SenderCreated =>
      result := PermissionRequired(remainingUris);
    case SenderNull =>
      result := Failed(IntentSenderNull);
    case RequestThrew =>
      if successCount > 0 {
        result := Success(successCount, |remainingUris|);
      } else {
        result := Failed(BatchRequestFailed);
      }
  }

  // ---- Requests to the file system ----

  /** A file-system effect a vault operation asks for. `deleteAlbumDirectory`
      catches everything it could throw, so a request never fails the
      operation that makes it. */
  datatype FileRequest = DeleteFile(path: string) | DeleteAlbumDirectory(albumName: string)
}
