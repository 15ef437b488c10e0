/** The string handling of UploadService: the file-name sanitiser, the video
    URL checks run before any download, the storage path of an uploaded
    video, the size window of a downloaded file, and the object path pulled
    out of a public URL when a video or an image is deleted. Downloading,
    checksums, retries and the storage calls themselves are not modelled;
    `Date.now()`, the bucket names and the file size are parameters. */
module Upload {
  import opened Wrappers
  import opened Text

  // ---------------------------------------------------------------- sanitizeFileName

  /** The characters the class `[a-zA-Z0-9-_]` accepts. */
  predicate IsSafeChar(c: char) {
    IsAsciiUpper(c) || IsAsciiLower(c) || IsDigit(c) || c == '-' || c == '_'
  }

  predicate AllSafe(s: string) {
    forall i :: 0 <= i < |s| ==> IsSafeChar(s[i])
  }

  /** One step of the global replace. */
  function SanitizeChar(c: char): (d: char)
    ensures IsSafeChar(d)
    ensures IsSafeChar(c) ==> d == c
    ensures !IsSafeChar(c) ==> d == '_'
  {
    if IsSafeChar(c) then c else '_'
  }

  /** `fileName.replace(/[^a-zA-Z0-9-_]/g, '_')`. */
  function SanitizeFileName(name: string): (r: string)
    ensures |r| == |name|
    ensures forall i :: 0 <= i < |name| ==> r[i] == SanitizeChar(name[i])
  {
    if name == [] then [] else [SanitizeChar(name[0])] + SanitizeFileName(name[1..])
  }

  /** Only safe characters come out, and safe characters pass through. */
  lemma SanitizedIsSafe(name: string)
    ensures AllSafe(SanitizeFileName(name))
    ensures AllSafe(name) <==> SanitizeFileName(name) == name
  {
    var r := SanitizeFileName(name);
    if r == name {
      assert forall i :: 0 <= i < |name| ==> IsSafeChar(name[i]) by {
        forall i | 0 <= i < |name| ensures IsSafeChar(name[i]) {
          assert IsSafeChar(r[i]);
        }
      }
    }
  }

  lemma SanitizeIdempotent(name: string)
    ensures SanitizeFileName(SanitizeFileName(name)) == SanitizeFileName(name)
  {
    SanitizedIsSafe(name);
    SanitizedIsSafe(SanitizeFileName(name));
  }

  // ---------------------------------------------------------------- URL checks

  /** isValidVideoUrl. */
  predicate IsValidVideoUrl(url: string) {
    url != [] && Contains(url, ".mp4") && (Contains(url, "heygen.ai") || Contains(url, "heygen.com"))
    && StartsWith(url, "http")
  }

  /** The empty-string guard of isValidVideoUrl is subsumed by the prefix test. */
  lemma ValidVideoUrlIff(url: string)
    ensures IsValidVideoUrl(url) <==>
              Contains(url, ".mp4") && (Contains(url, "heygen.ai") || Contains(url, "heygen.com")) && StartsWith(url, "http")
  {
  }

  datatype UrlError = EmptyUrl | NotHttp | TooShort | NotAVideoUrl

  const MinUrlLength := 50

  /** The four checks uploadVideoFromUrl runs before it touches the network. */
  function ValidateVideoUrl(url: string): (r: Outcome<UrlError>)
    ensures r.Pass? <==> |url| >= MinUrlLength && IsValidVideoUrl(url)
    ensures r == Fail(EmptyUrl) <==> url == []
    ensures r == Fail(NotHttp) <==> url != [] && !StartsWith(url, "http")
    ensures r == Fail(TooShort) <==> StartsWith(url, "http") && |url| < MinUrlLength
  {
    if url == [] then Fail(EmptyUrl)
    else if !StartsWith(url, "http") then Fail(NotHttp)
    else if |url| < MinUrlLength then Fail(TooShort)
    else if !IsValidVideoUrl(url) then Fail(NotAVideoUrl)
    else Pass
  }

  // ---------------------------------------------------------------- storage path

  /** `${sanitizeFileName(fileName)}_${Date.now()}.mp4`. */
  function UniqueFileName(name: string, now: nat): (r: string)
    ensures |r| > |name|
  {
    SanitizeFileName(name) + "_" + NatToString(now) + ".mp4"
  }

  /** `${folderPath}/${uniqueFileName}`. */
  function StoragePath(folder: string, name: string, now: nat): (r: string)
    ensures StartsWith(r, folder + "/")
  {
    folder + "/" + UniqueFileName(name, now)
  }

  /** The file lands directly in the folder: its own name has no '/', and it
      ends in ".mp4". */
  lemma UniqueFileNameShape(name: string, now: nat)
    ensures '/' !in UniqueFileName(name, now)
    ensures UniqueFileName(name, now)[|UniqueFileName(name, now)| - 4..] == ".mp4"
  {
    var s := SanitizeFileName(name);
    var t := NatToString(now);
    var r := UniqueFileName(name, now);
    SanitizedIsSafe(name);
    assert r == s + ("_" + t + ".mp4");
    forall i | 0 <= i < |r| ensures r[i] != '/' {
      if i < |s| {
        assert r[i] == s[i] && IsSafeChar(s[i]);
      } else if i == |s| {
        assert r[i] == '_';
      } else if i < |s| + 1 + |t| {
        assert r[i] == t[i - |s| - 1] && IsDigit(t[i - |s| - 1]);
      } else {
        assert r[i] == ".mp4"[i - |s| - 1 - |t|];
      }
    }
  }

  /** Two uploads of the same name into the same folder at different
      milliseconds get different paths. */
  lemma StoragePathsDiffer(folder: string, name: string, now1: nat, now2: nat)
    requires now1 != now2
    ensures StoragePath(folder, name, now1) != StoragePath(folder, name, now2)
  {
    var prefix := folder + "/" + SanitizeFileName(name) + "_";
    var t1, t2 := NatToString(now1), NatToString(now2);
    assert StoragePath(folder, name, now1) == prefix + (t1 + ".mp4");
    assert StoragePath(folder, name, now2) == prefix + (t2 + ".mp4");
    if StoragePath(folder, name, now1) == StoragePath(folder, name, now2) {
      assert t1 + ".mp4" == (prefix + (t1 + ".mp4"))[|prefix|..];
      assert t2 + ".mp4" == (prefix + (t2 + ".mp4"))[|prefix|..];
      assert |t1| == |t2|;
      assert t1 == (t1 + ".mp4")[..|t1|];
      assert t2 == (t2 + ".mp4")[..|t2|];
      NatToStringValue(now1);
      NatToStringValue(now2);
      assert false;
    }
  }

  /** `uploads/${uuid}-${file.originalname}` in uploadLocalImage. */
  function ImagePath(uuid: string, originalName: string): (r: string)
    ensures |r| == 9 + |uuid| + |originalName| && StartsWith(r, "uploads/")
    ensures r[|r| - |originalName|..] == originalName
  {
    "uploads/" + uuid + "-" + originalName
  }

  // ---------------------------------------------------------------- size window

  const MinFileSize := 10 * 1024
  const MaxFileSize := 500 * 1024 * 1024

  datatype SizeError = FileTooSmall | FileTooLarge

  function CheckFileSize(size: int): (r: Outcome<SizeError>)
    ensures r.Pass? <==> 10240 <= size <= 524288000
    ensures r == Fail(FileTooSmall) <==> size < 10240
  {
    if size < MinFileSize then Fail(FileTooSmall)
    else if size > MaxFileSize then Fail(FileTooLarge)
    else Pass
  }

  // ---------------------------------------------------------------- delete paths

  /** `/storage/v1/object/public/${bucket}/`. */
  function BucketPath(bucket: string): (r: string)
    ensures |r| > 0
  {
    "/storage/v1/object/public/" + bucket + "/"
  }

  /** `url.split(bucketPath)[1]`, or None when it is missing or empty: the text
      after the first occurrence of the bucket path, up to the next one. */
  function ObjectPath(url: string, bucketPath: string): (r: Option<string>)
    requires |bucketPath| > 0
    ensures r.None? <==> (!Contains(url, bucketPath) || (
                            var i := IndexOf(url, bucketPath).value;
                            StartsWith(url[i + |bucketPath|..], bucketPath) || i + |bucketPath| == |url|))
    ensures r.Some? ==> |r.value| > 0 && !Contains(r.value, bucketPath)
    ensures r.Some? ==> exists i :: OccursAt(url, bucketPath, i) && StartsWith(url[i + |bucketPath|..], r.value)
  {
    match IndexOf(url, bucketPath)
    case None => None
    case Some(i) =>
      var rest := url[i + |bucketPath|..];
      var part := match IndexOf(rest, bucketPath) case Some(j) => rest[..j] case None => rest;
      assert !Contains(part, bucketPath) by {
        if Contains(part, bucketPath) {
          var k :| 0 <= k <= |part| - |bucketPath| && OccursAt(part, bucketPath, k);
          assert rest[k..k + |bucketPath|] == part[k..k + |bucketPath|];
          assert OccursAt(rest, bucketPath, k);
        }
      }
      assert StartsWith(rest, part);
      if part == [] then
        assert IndexOf(rest, bucketPath).Some? ==> IndexOf(rest, bucketPath).value == 0;
        None
      else
        assert IndexOf(rest, bucketPath) != Some(0);
        Some(part)
  }

  /** `imageUrl.replace(/^\/+/, '')`. */
  function StripLeadingSlashes(s: string): (r: string)
    ensures |r| <= |s| && s[|s| - |r|..] == r
    ensures r == [] || r[0] != '/'
    ensures forall i :: 0 <= i < |s| - |r| ==> s[i] == '/'
  {
    if s != [] && s[0] == '/' then StripLeadingSlashes(s[1..]) else s
  }

  lemma StripLeadingSlashesIdempotent(s: string)
    ensures StripLeadingSlashes(StripLeadingSlashes(s)) == StripLeadingSlashes(s)
  {
  }

  /** The object deleteVideo removes, or None where it returns false before
      calling storage. */
  function DeleteVideoPath(videoUrl: string, videoBucket: string): (r: Option<string>)
    ensures videoUrl == [] ==> r.None?
    ensures r.Some? ==> |r.value| > 0 && Contains(videoUrl, BucketPath(videoBucket))
  {
    if videoUrl == [] then None else ObjectPath(videoUrl, BucketPath(videoBucket))
  }

  /** The object deleteLocalImage removes, or None where it returns early. */
  function DeleteImagePath(imageUrl: string, imageBucket: string): (r: Option<string>)
    ensures imageUrl == [] ==> r.None?
    ensures imageUrl != [] && !StartsWith(imageUrl, "http") ==> r == Some(StripLeadingSlashes(imageUrl))
    ensures StartsWith(imageUrl, "http") ==> r == ObjectPath(imageUrl, BucketPath(imageBucket))
  {
    if imageUrl == [] then None
    else if StartsWith(imageUrl, "http") then ObjectPath(imageUrl, BucketPath(imageBucket))
    else Some(StripLeadingSlashes(imageUrl))
  }

  /** A public URL made of an origin, the bucket path and an object path
      yields that object path back, provided the bucket path first occurs
      where it was put and the object path does not contain it. */
  lemma ObjectPathRoundTrip(origin: string, bucket: string, path: string)
    requires IndexOf(origin + BucketPath(bucket), BucketPath(bucket)) == Some(|origin|)
    requires |path| > 0 && !Contains(path, BucketPath(bucket))
    ensures ObjectPath(origin + BucketPath(bucket) + path, BucketPath(bucket)) == Some(path)
  {
    var bp := BucketPath(bucket);
    var head := origin + bp;
    var url := head + path;
    forall j | 0 <= j < |origin| ensures !OccursAt(url, bp, j) {
      assert !OccursAt(head, bp, j);
      assert url[j..j + |bp|] == head[j..j + |bp|];
    }
    assert OccursAt(url, bp, |origin|) by {
      assert url[|origin|..|origin| + |bp|] == bp;
    }
    assert IndexOf(url, bp) == Some(|origin|);
    assert url[|origin| + |bp|..] == path;
  }
}
