/** Assembly of the response for one attachment row (Attachment.ts): the home-relative path
    expansion, the image allow-list, and the best-effort read / decode / placeholder-hash steps
    whose failures degrade the response instead of failing it. File reading, image decoding and
    the placeholder hash are inputs: the file system is a map from path to bytes, the decoder and
    the hash are functions passed in. The base64 text is kept symbolic (`Base64Of(bytes)`). */
module Attachments {
  import opened Wrappers

  type Byte = x: int | 0 <= x < 256

  /** The one field of an owning message that the response reads. */
  datatype MessageRef = MessageRef(guid: string)

  /** The columns of an attachment row that the response reads. `messages` is `None` when the
      relation was not loaded; `mimeType` is a nullable column. */
  datatype AttachmentRecord = AttachmentRecord(
    rowId: int,
    messages: Option<seq<MessageRef>>,
    guid: string,
    filePath: string,
    uti: string,
    mimeType: Option<string>,
    transferState: int,
    isOutgoing: bool,
    transferName: string,
    totalBytes: int,
    isSticker: bool,
    hideAttachment: bool)

  /** A decoded image, through the two dimensions the response reads. */
  datatype Image = Image(height: nat, width: nat)

  /** The `data` variable: null, the raw byte array, or the base64 text of those bytes. */
  datatype Payload = NoData | RawBytes(bytes: seq<Byte>) | Base64Of(bytes: seq<Byte>)

  datatype AttachmentResponse = AttachmentResponse(
    guid: string,
    messages: seq<string>,
    data: Payload,
    height: nat,
    width: nat,
    blurhash: Option<string>,
    uti: string,
    mimeType: Option<string>,
    transferState: int,
    isOutgoing: bool,
    transferName: string,
    totalBytes: int,
    isSticker: bool,
    hideAttachment: bool)

  /** What the function sees of the process: the HOME variable and the readable files. */
  datatype Host = Host(home: Option<string>, files: map<string, seq<Byte>>)

  /** `path.join(HOME, …)` throws when HOME is not set; it runs before the `try`, so the error
      reaches the caller. */
  datatype PathError = HomeNotSet

  /** handledImageMimes: the six MIME types that are decoded as images. */
  const HandledImageMimes: seq<string> :=
    ["image/jpeg", "image/jpg", "image/png", "image/bmp", "image/tiff", "image/gif"]

  /** `handledImageMimes.includes(mimeType)`; a null MIME type is never included. */
  predicate IsHandledImageMime(mimeType: Option<string>)
  {
    mimeType.Some? && mimeType.value in HandledImageMimes
  }

  /** `s` without the separators it ends with. */
  function TrimTrailingSlashes(s: string): (t: string)
    ensures |t| <= |s| && t == s[..|t|]
    ensures t == [] || t[|t| - 1] != '/'
    ensures forall k :: |t| <= k < |s| ==> s[k] == '/'
  {
    if |s| > 0 && s[|s| - 1] == '/' then TrimTrailingSlashes(s[..|s| - 1]) else s
  }

  /** `s` without the separators it begins with. */
  function TrimLeadingSlashes(s: string): (t: string)
    ensures |t| <= |s| && t == s[|s| - |t|..]
    ensures t == [] || t[0] != '/'
    ensures forall k :: 0 <= k < |s| - |t| ==> s[k] == '/'
  {
    if |s| > 0 && s[0] == '/' then TrimLeadingSlashes(s[1..]) else s
  }

  /** `path.join(base, rest)` for the shapes the expansion produces: an empty part is dropped,
      joining two empty parts gives ".", and the separators where the parts meet collapse into
      one. */
  function JoinPath(base: string, rest: string): (p: string)
    ensures base == [] && rest == [] ==> p == "."
    ensures base == [] && rest != [] ==> p == rest
    ensures base != [] && rest == [] ==> p == base
    ensures base != [] && rest != [] ==>
              var head := TrimTrailingSlashes(base);
              var tail := TrimLeadingSlashes(rest);
              p == head + "/" + tail &&
              // exactly one separator where the parts meet
              (head == [] || head[|head| - 1] != '/') && (tail == [] || tail[0] != '/')
  {
    if base == [] then (if rest == [] then "." else rest)
    else if rest == [] then base
    else TrimTrailingSlashes(base) + "/" + TrimLeadingSlashes(rest)
  }

  /** With HOME "/" the separators do not double: `~Library` reads `/Library`. */
  lemma {:induction false} RootHomeJoin(rest: string)
    requires rest != [] && rest[0] != '/'
    ensures JoinPath("/", rest) == "/" + rest
  {
    assert TrimTrailingSlashes("/") == TrimTrailingSlashes("/"[..0]);
    assert "/"[..0] == [];
  }

  /** True when the path begins with the home shorthand `~`. */
  predicate IsHomeRelative(filePath: string)
  {
    |filePath| > 0 && filePath[0] == '~'
  }

  /** The path that is read: HOME joined with the rest after `~`, or the path unchanged. */
  function ResolvePath(filePath: string, home: Option<string>): (r: Result<string, PathError>)
    ensures r.Failure? <==> IsHomeRelative(filePath) && home.None?
    ensures !IsHomeRelative(filePath) ==> r == Success(filePath)
    ensures r.Success? && IsHomeRelative(filePath) ==>
              r.value == JoinPath(home.value, filePath[1..])
  {
    if IsHomeRelative(filePath) then
      if home.None? then Failure(HomeNotSet) else Success(JoinPath(home.value, filePath[1..]))
    else Success(filePath)
  }

  /** `~/rest` is read from the same place as the absolute path HOME + "/" + rest, provided HOME
      itself does not begin with `~` (otherwise the joined path would be expanded again); with an
      empty HOME the same holds unless `rest` begins with `~` for the same reason. */
  lemma {:induction false} HomeRelativeMatchesAbsolute(home: string, rest: string)
    requires !IsHomeRelative(home)
    requires home == [] ==> !IsHomeRelative(rest)
    ensures ResolvePath("~" + rest, Some(home)) == ResolvePath(JoinPath(home, rest), Some(home))
  {
    assert ("~" + rest)[1..] == rest;
    if home != [] && rest != [] {
      var head := TrimTrailingSlashes(home);
      if head != [] {
        assert JoinPath(home, rest)[0] == head[0] == home[0];
      } else {
        assert JoinPath(home, rest)[0] == '/';
      }
    }
  }

  /** Why the empty HOME needs the extra condition: `~~x` reads `~x`, while the joined spelling
      `~x` is expanded once more and reads `x`. */
  lemma EmptyHomeExpandsJoinedPathAgain()
    ensures ResolvePath("~~x", Some("")) == Success("~x")
    ensures ResolvePath(JoinPath("", "~x"), Some("")) == Success("x")
  {
    assert "~~x"[1..] == "~x";
    assert "~x"[1..] == "x";
  }

  /** The guids of the owning messages, in order; `[]` when the relation is absent. */
  function MessageGuids(messages: Option<seq<MessageRef>>): (guids: seq<string>)
    ensures messages.None? ==> guids == []
    ensures messages.Some? ==>
              |guids| == |messages.value| &&
              forall k :: 0 <= k < |guids| ==> guids[k] == messages.value[k].guid
  {
    if messages.None? then []
    else seq(|messages.value|, k requires 0 <= k < |messages.value| => messages.value[k].guid)
  }

  /** The image the `try` block decodes: only a read file with an allow-listed MIME type is
      decoded, and the decoder may fail (`None`, the thrown error). */
  function DecodedImage(
    path: string, host: Host, mimeType: Option<string>, decode: seq<Byte> -> Option<Image>)
    : (image: Option<Image>)
    ensures image.Some? ==> path in host.files && IsHandledImageMime(mimeType)
  {
    if path in host.files && IsHandledImageMime(mimeType) then decode(host.files[path]) else None
  }

  /** The `try` block of getAttachmentResponse on the expanded path: read the file, keep the
      bytes when `withData`, decode an allow-listed image, hash it when `withBlurhash`, and convert
      the bytes to base64 last. A failed read or decode jumps to the `catch`, and the three
      results keep what they held at that point. */
  method ReadAttachment(
    path: string, host: Host, mimeType: Option<string>, withData: bool, withBlurhash: bool,
    decode: seq<Byte> -> Option<Image>, blurhashOf: Image -> Option<string>)
    returns (data: Payload, image: Option<Image>, blurhash: Option<string>)
    ensures image == DecodedImage(path, host, mimeType, decode)
    ensures blurhash.Some? ==> withBlurhash && image.Some?
    ensures withBlurhash && image.Some? ==> blurhash == blurhashOf(image.value)
    // null unless asked for and read; base64 of the file when every step succeeded; the raw
    // bytes when the decode that follows the read failed
    ensures data == NoData <==> !withData || path !in host.files
    ensures data != NoData ==> data.bytes == host.files[path]
    ensures data.RawBytes? <==>
              withData && path in host.files && IsHandledImageMime(mimeType) &&
              decode(host.files[path]).None?
  {
    data, image, blurhash := NoData, None, None;
    if path !in host.files {
      return;
    }
    var fopen := host.files[path];
    if withData {
      data := RawBytes(fopen);
    }
    if IsHandledImageMime(mimeType) {
      image := decode(fopen);
      if image.None? {
        return;
      }
      if withBlurhash {
        blurhash := blurhashOf(image.value);
      }
    }
    if data.RawBytes? {
      data := Base64Of(data.bytes);
    }
  }

  /** getAttachmentResponse. Only the path expansion, which runs before the `try`, can fail the
      call; everything inside the `try` degrades the response instead. Every field's rule is
      stated separately below. */
  method GetAttachmentResponse(
    tableData: AttachmentRecord,
    host: Host,
    decode: seq<Byte> -> Option<Image>,
    blurhashOf: Image -> Option<string>,
    withData: bool := false,
    withBlurhash: bool := true)
    returns (r: Result<AttachmentResponse, PathError>)
    ensures r.Failure? <==> ResolvePath(tableData.filePath, host.home).Failure?
    // the record's own fields are copied through
    ensures r.Success? ==>
              r.value.guid == tableData.guid &&
              r.value.messages == MessageGuids(tableData.messages) &&
              r.value.uti == tableData.uti &&
              r.value.mimeType == tableData.mimeType &&
              r.value.transferState == tableData.transferState &&
              r.value.isOutgoing == tableData.isOutgoing &&
              r.value.transferName == tableData.transferName &&
              r.value.totalBytes == tableData.totalBytes &&
              r.value.isSticker == tableData.isSticker &&
              r.value.hideAttachment == tableData.hideAttachment
    // the rest is what the `try` block produced on the expanded path
    ensures r.Success? ==>
              var path := ResolvePath(tableData.filePath, host.home).value;
              var image := DecodedImage(path, host, tableData.mimeType, decode);
              // dimensions: the decoded image's, else both zero
              (image.Some? ==> r.value.height == image.value.height && r.value.width == image.value.width) &&
              (image.None? ==> r.value.height == 0 && r.value.width == 0) &&
              // placeholder hash: only from a decoded image, and only when asked for
              (r.value.blurhash.Some? ==> withBlurhash && image.Some?) &&
              (withBlurhash && image.Some? ==> r.value.blurhash == blurhashOf(image.value))
    ensures r.Success? ==>
              var path := ResolvePath(tableData.filePath, host.home).value;
              (r.value.data == NoData <==> !withData || path !in host.files) &&
              (r.value.data != NoData ==> r.value.data.bytes == host.files[path]) &&
              (r.value.data.RawBytes? <==>
                 withData && path in host.files && IsHandledImageMime(tableData.mimeType) &&
                 decode(host.files[path]).None?)
  {
    var fPath := ResolvePath(tableData.filePath, host.home);
    if fPath.Failure? {
      return Failure(fPath.error);
    }

    var data, image, blurhash :=
      ReadAttachment(fPath.value, host, tableData.mimeType, withData, withBlurhash, decode, blurhashOf);

    r := Success(AttachmentResponse(
      tableData.guid,
      MessageGuids(tableData.messages),
      data,
      if image.Some? then image.value.height else 0,
      if image.Some? then image.value.width else 0,
      blurhash,
      tableData.uti,
      tableData.mimeType,
      tableData.transferState,
      tableData.isOutgoing,
      tableData.transferName,
      tableData.totalBytes,
      tableData.isSticker,
      tableData.hideAttachment));
  }
}
