/** Validation of decoded control frames (core/protocol.py, and the two resume-control checks of
    core/resume.py). A frame is any JSON value; Python's bool/int/float distinctions are kept. */
module Protocol {
  import opened Common

  /** A float is the fraction it denotes. */
  datatype Json =
    | Null | Bool(b: bool) | Int(i: int) | Float(numerator: int, denominator: nat) | Str(s: string)
    | List(items: seq<Json>) | Obj(fields: map<string, Json>)

  /** ProtocolError, or the TypeError of looking up an unhashable value in a dictionary. */
  datatype Error = ProtocolError | UnhashableKey

  datatype FileMeta = FileMeta(id: string, name: string, size: nat, sha256: string)

  datatype Offer = Offer(transferId: string, files: seq<FileMeta>, totalSize: nat, message: Option<string>)

  type Payload = map<string, Json>

  /** dict.get: a missing key reads as None. */
  function Field(fields: Payload, key: string): Json { if key in fields then fields[key] else Null }

  function Get(payload: Json, key: string): Json
    requires payload.Obj?
  {
    Field(payload.fields, key)
  }

  /** Python's `value == n`: 3.0 equals 3 and True equals 1. */
  predicate EqualsInt(value: Json, n: int) {
    match value
    case Int(i) => i == n
    case Float(p, q) => q > 0 && p == n * q
    case Bool(b) => (if b then 1 else 0) == n
    case _ => false
  }

  predicate IsHex(c: char) { '0' <= c <= '9' || 'a' <= c <= 'f' }

  predicate IsFileIdChar(c: char) {
    'A' <= c <= 'Z' || 'a' <= c <= 'z' || '0' <= c <= '9' || c == '_' || c == '-'
  }

  predicate IsTransferId(s: string) { |s| == 32 && forall c :: c in s ==> IsHex(c) }

  predicate IsFileId(s: string) { 1 <= |s| <= 64 && forall c :: c in s ==> IsFileIdChar(c) }

  predicate IsDigest(s: string) { |s| == 64 && forall c :: c in s ==> IsHex(c) }

  function Ids(files: seq<FileMeta>): set<string> { set i | 0 <= i < |files| :: files[i].id }

  ghost predicate UniqueIds(files: seq<FileMeta>) {
    forall i, j :: 0 <= i < j < |files| ==> files[i].id != files[j].id
  }

  function TotalSize(files: seq<FileMeta>): nat {
    if files == [] then 0 else TotalSize(files[..|files| - 1]) + files[|files| - 1].size
  }

  // ---- offers

  ghost predicate GoodFile(raw: Json, validName: string -> bool) {
    && raw.Obj?
    && Get(raw, "file_id").Str? && IsFileId(Get(raw, "file_id").s)
    && Get(raw, "name").Str? && validName(Get(raw, "name").s)
    && Get(raw, "size").Int? && 0 <= Get(raw, "size").i <= MAX_FILE_SIZE
    && Get(raw, "sha256").Str? && IsDigest(Get(raw, "sha256").s)
  }

  ghost function FileOf(raw: Json, validName: string -> bool): FileMeta
    requires GoodFile(raw, validName)
  {
    FileMeta(Get(raw, "file_id").s, Get(raw, "name").s, Get(raw, "size").i, Get(raw, "sha256").s)
  }

  ghost function FilesOf(raws: seq<Json>, validName: string -> bool): (files: seq<FileMeta>)
    requires forall k :: 0 <= k < |raws| ==> GoodFile(raws[k], validName)
    ensures |files| == |raws| && forall k :: 0 <= k < |raws| ==> files[k] == FileOf(raws[k], validName)
  {
    seq(|raws|, i requires 0 <= i < |raws| => FileOf(raws[i], validName))
  }

  ghost predicate GoodHeader(payload: Json) {
    && payload.Obj?
    && Get(payload, "type") == Str("transfer_offer")
    && EqualsInt(Get(payload, "version"), PROTOCOL_VERSION)
    && Get(payload, "transfer_id").Str? && IsTransferId(Get(payload, "transfer_id").s)
    && Get(payload, "files").List? && 1 <= |Get(payload, "files").items| <= MAX_FILES_PER_SESSION
    && Get(payload, "count") == Int(|Get(payload, "files").items|)
  }

  ghost predicate GoodFiles(raws: seq<Json>, validName: string -> bool) {
    && (forall k :: 0 <= k < |raws| ==> GoodFile(raws[k], validName))
    && UniqueIds(FilesOf(raws, validName))
    && TotalSize(FilesOf(raws, validName)) <= MAX_SESSION_SIZE
  }

  ghost predicate GoodOffer(payload: Json, validName: string -> bool) {
    && GoodHeader(payload)
    && var raws := Get(payload, "files").items;
    && GoodFiles(raws, validName)
    && Get(payload, "total_size") == Int(TotalSize(FilesOf(raws, validName)))
    && (match Get(payload, "message") case Null => true case Str(m) => |m| <= 4096 case _ => false)
  }

  lemma {:induction false} TotalSizeMonotone(files: seq<FileMeta>, k: nat)
    requires k <= |files|
    ensures TotalSize(files[..k]) <= TotalSize(files)
    decreases |files|
  {
    if k < |files| {
      assert files[..|files| - 1][..k] == files[..k];
      TotalSizeMonotone(files[..|files| - 1], k);
    } else {
      assert files[..k] == files;
    }
  }

  /** One pass of the file loop: the entry is well formed and its ID has not been seen. */
  method ReadFile(raw: Json, seen: set<string>, validName: string -> bool) returns (r: Result<FileMeta, Error>)
    ensures r.Ok? <==> GoodFile(raw, validName) && Get(raw, "file_id").s !in seen
    ensures r.Ok? ==> r.value == FileOf(raw, validName)
  {
    if !raw.Obj? { return Err(ProtocolError); }
    var fileId := Get(raw, "file_id");
    if !fileId.Str? || !IsFileId(fileId.s) || fileId.s in seen { return Err(ProtocolError); }
    var name := Get(raw, "name");
    if !name.Str? || !validName(name.s) { return Err(ProtocolError); }
    var size := Get(raw, "size");
    if !size.Int? || !(0 <= size.i <= MAX_FILE_SIZE) { return Err(ProtocolError); }
    var digest := Get(raw, "sha256");
    if !digest.Str? || !IsDigest(digest.s) { return Err(ProtocolError); }
    return Ok(FileMeta(fileId.s, name.s, size.i, digest.s));
  }

  /** A repeated ID or an oversized prefix already rules the whole list out. */
  lemma PrefixRulesOut(raws: seq<Json>, validName: string -> bool, k: nat, seen: set<string>)
    requires GoodFiles(raws, validName) && k < |raws|
    requires seen == Ids(FilesOf(raws[..k], validName))
    ensures Get(raws[k], "file_id").s !in seen
    ensures TotalSize(FilesOf(raws[..k + 1], validName)) <= MAX_SESSION_SIZE
  {
    var files := FilesOf(raws, validName);
    assert files[k].id == Get(raws[k], "file_id").s;
    assert FilesOf(raws[..k], validName) == files[..k];
    assert FilesOf(raws[..k + 1], validName) == files[..k + 1];
    TotalSizeMonotone(files, k + 1);
  }

  ghost predicate Read(raws: seq<Json>, k: nat, validName: string -> bool, files: seq<FileMeta>, seen: set<string>,
      total: nat)
    requires k <= |raws|
  {
    && (forall j :: 0 <= j < k ==> GoodFile(raws[j], validName))
    && files == FilesOf(raws[..k], validName)
    && seen == Ids(files) && UniqueIds(files)
    && total == TotalSize(files)
  }

  lemma ReadOneMore(raws: seq<Json>, k: nat, validName: string -> bool, files: seq<FileMeta>, seen: set<string>,
      total: nat)
    requires k < |raws| && Read(raws, k, validName, files, seen, total)
    requires GoodFile(raws[k], validName) && Get(raws[k], "file_id").s !in seen
    ensures var file := FileOf(raws[k], validName);
            Read(raws, k + 1, validName, files + [file], seen + {file.id}, total + file.size)
  {
    var file := FileOf(raws[k], validName);
    var longer := files + [file];
    assert longer == FilesOf(raws[..k + 1], validName) && longer[..|longer| - 1] == files;
    assert Ids(longer) == Ids(files) + {file.id};
  }

  method ReadFiles(raws: seq<Json>, validName: string -> bool) returns (r: Result<(seq<FileMeta>, nat), Error>)
    ensures r.Ok? <==> GoodFiles(raws, validName)
    ensures r.Ok? ==> r.value == (FilesOf(raws, validName), TotalSize(FilesOf(raws, validName)))
  {
    var files: seq<FileMeta>, seen: set<string>, computed: nat := [], {}, 0;
    var k := 0;
    while k < |raws|
      invariant 0 <= k <= |raws|
      invariant Read(raws, k, validName, files, seen, computed) && computed <= MAX_SESSION_SIZE
    {
      if GoodFiles(raws, validName) { PrefixRulesOut(raws, validName, k, seen); }
      var file := ReadFile(raws[k], seen, validName);
      if file.Err? { return Err(file.error); }
      ReadOneMore(raws, k, validName, files, seen, computed);
      files, seen, computed := files + [file.value], seen + {file.value.id}, computed + file.value.size;
      if computed > MAX_SESSION_SIZE { return Err(ProtocolError); }
      k := k + 1;
    }
    assert raws[..k] == raws;
    return Ok((files, computed));
  }

  /** validate_offer accepts exactly the good payloads; an accepted offer has unique file IDs and
      its total is the exact bounded sum. `validName` stands for sanitize_filename. */
  method ValidateOffer(payload: Json, validName: string -> bool) returns (r: Result<Offer, Error>)
    ensures r.Ok? <==> GoodOffer(payload, validName)
    ensures r.Ok? ==>
      && r.value.transferId == Get(payload, "transfer_id").s
      && r.value.files == FilesOf(Get(payload, "files").items, validName)
      && UniqueIds(r.value.files)
      && r.value.totalSize == TotalSize(r.value.files) <= MAX_SESSION_SIZE
      && r.value.message == (match Get(payload, "message") case Str(m) => Some(m) case _ => None)
  {
    if !payload.Obj? || Get(payload, "type") != Str("transfer_offer") { return Err(ProtocolError); }
    if !EqualsInt(Get(payload, "version"), PROTOCOL_VERSION) { return Err(ProtocolError); }
    var id := Get(payload, "transfer_id");
    if !id.Str? || !IsTransferId(id.s) { return Err(ProtocolError); }
    var raws, count := Get(payload, "files"), Get(payload, "count");
    if !raws.List? || !count.Int? || count.i != |raws.items| || !(1 <= count.i <= MAX_FILES_PER_SESSION) {
      return Err(ProtocolError);
    }
    var files := ReadFiles(raws.items, validName);
    if files.Err? { return Err(files.error); }
    var total, message := Get(payload, "total_size"), Get(payload, "message");
    if total != Int(files.value.1) { return Err(ProtocolError); }
    if message == Null { return Ok(Offer(id.s, files.value.0, files.value.1, None)); }
    if !message.Str? || |message.s| > 4096 { return Err(ProtocolError); }
    return Ok(Offer(id.s, files.value.0, files.value.1, Some(message.s)));
  }

  // ---- chunk headers

  function EncodeChunk(transferId: string, fileId: string, index: int, offset: int, size: int): Json {
    Obj(map["type" := Str("chunk"), "transfer_id" := Str(transferId), "file_id" := Str(fileId),
            "index" := Int(index), "offset" := Int(offset), "size" := Int(size)])
  }

  function ValidateChunkControl(payload: Json, transferId: string, fileId: string,
                                index: nat, offset: nat, remaining: int): Result<nat, Error>
  {
    if !payload.Obj? || Get(payload, "type") != Str("chunk") then Err(ProtocolError)
    else if !IsTransferId(transferId) || !IsFileId(fileId) then Err(ProtocolError)
    else
      var i, o, n := Get(payload, "index"), Get(payload, "offset"), Get(payload, "size");
      if || Get(payload, "transfer_id") != Str(transferId)
         || Get(payload, "file_id") != Str(fileId)
         || !i.Int? || i.i < 0 || i.i != index
         || !o.Int? || o.i < 0 || o.i != offset
         || !n.Int? || !(0 < n.i <= Min(CHUNK_SIZE, remaining))
      then Err(ProtocolError)
      else Ok(n.i)
  }

  /** The typed test the session machine applies to a decoded chunk header. */
  predicate ChunkHeaderOk(transferId: string, fileId: string, index: int, offset: int, size: int,
                          expectedId: string, expectedFile: string, expectedIndex: nat, expectedOffset: nat,
                          remaining: int)
  {
    && transferId == expectedId && fileId == expectedFile
    && index == expectedIndex && offset == expectedOffset
    && 0 < size <= Min(CHUNK_SIZE, remaining)
  }

  /** Encoding then validating a header is the typed test, and the declared size comes back. */
  lemma ChunkHeaderRoundTrip(tid: string, fid: string, index: int, offset: int, size: int,
                             tid': string, fid': string, index': nat, offset': nat, remaining: int)
    requires IsTransferId(tid') && IsFileId(fid')
    ensures ValidateChunkControl(EncodeChunk(tid, fid, index, offset, size), tid', fid', index', offset', remaining)
            == if ChunkHeaderOk(tid, fid, index, offset, size, tid', fid', index', offset', remaining)
               then Ok(size) else Err(ProtocolError)
  {
    var payload := EncodeChunk(tid, fid, index, offset, size);
    assert Get(payload, "type") == Str("chunk") && Get(payload, "transfer_id") == Str(tid);
    assert Get(payload, "file_id") == Str(fid) && Get(payload, "index") == Int(index);
    assert Get(payload, "offset") == Int(offset) && Get(payload, "size") == Int(size);
  }

  /** Of all payloads exactly the chunk headers of this file at this place, within chunk and remainder, pass. */
  lemma ChunkHeaderIsExact(payload: Json, tid: string, fid: string, index: nat, offset: nat, remaining: int, size: nat)
    ensures ValidateChunkControl(payload, tid, fid, index, offset, remaining) == Ok(size) <==>
              && payload.Obj? && IsTransferId(tid) && IsFileId(fid)
              && (forall key :: key in ["type", "transfer_id", "file_id", "index", "offset", "size"] ==>
                    Get(payload, key) == Get(EncodeChunk(tid, fid, index, offset, size), key))
              && 0 < size <= CHUNK_SIZE && size <= remaining
  {
    var own, keys := EncodeChunk(tid, fid, index, offset, size),
                     ["type", "transfer_id", "file_id", "index", "offset", "size"];
    assert keys[0] in keys && keys[1] in keys && keys[2] in keys;
    assert keys[3] in keys && keys[4] in keys && keys[5] in keys;
    assert Get(own, "type") == Str("chunk") && Get(own, "transfer_id") == Str(tid) && Get(own, "file_id") == Str(fid);
    assert Get(own, "index") == Int(index) && Get(own, "offset") == Int(offset) && Get(own, "size") == Int(size);
  }

  // ---- responses

  function BuildResponse(transferId: string, accepted: bool, reason: Option<string>): Result<Json, Error> {
    if !IsTransferId(transferId) then Err(ProtocolError)
    else
      var base :=
        map["type" := Str("transfer_response"), "transfer_id" := Str(transferId), "accepted" := Bool(accepted)];
      if reason.Some? && reason.value != ""
      then Ok(Obj(base["reason" := Str(if |reason.value| <= 512 then reason.value else reason.value[..512])]))
      else Ok(Obj(base))
  }

  function ValidateResponse(payload: Json, transferId: string): Result<(bool, Option<string>), Error> {
    if !payload.Obj? || Get(payload, "type") != Str("transfer_response") then Err(ProtocolError)
    else if !IsTransferId(transferId) || Get(payload, "transfer_id") != Str(transferId) then Err(ProtocolError)
    else if !Get(payload, "accepted").Bool? then Err(ProtocolError)
    else match Get(payload, "reason")
      case Null => Ok((Get(payload, "accepted").b, None))
      case Str(s) => if |s| <= 512 then Ok((Get(payload, "accepted").b, Some(s))) else Err(ProtocolError)
      case _ => Err(ProtocolError)
  }

  /** The decision always survives the wire; the reason does up to 512 characters, and an empty
      reason comes back as none. */
  lemma ResponseRoundTrip(transferId: string, accepted: bool, reason: Option<string>)
    requires IsTransferId(transferId)
    ensures BuildResponse(transferId, accepted, reason).Ok?
    ensures var r := ValidateResponse(BuildResponse(transferId, accepted, reason).value, transferId);
            && r.Ok? && r.value.0 == accepted
            && (r.value.1 == reason <==> (reason.None? || 1 <= |reason.value| <= 512))
            && (r.value.1.Some? ==> reason.Some? && r.value.1.value <= reason.value)
  {
    var payload := BuildResponse(transferId, accepted, reason).value;
    assert Get(payload, "type") == Str("transfer_response") && Get(payload, "transfer_id") == Str(transferId);
    assert Get(payload, "accepted") == Bool(accepted);
    if reason.None? || reason.value == "" { assert Get(payload, "reason") == Null; }
  }

  /** Of all payloads exactly the responses for this transfer with a boolean decision and a reason of at most
      512 characters, if any, pass. */
  lemma ResponseIsExact(payload: Json, transferId: string, accepted: bool, reason: Option<string>)
    ensures ValidateResponse(payload, transferId) == Ok((accepted, reason)) <==>
              && payload.Obj? && IsTransferId(transferId)
              && Get(payload, "type") == Str("transfer_response") && Get(payload, "transfer_id") == Str(transferId)
              && Get(payload, "accepted") == Bool(accepted)
              && Get(payload, "reason") == (if reason.Some? then Str(reason.value) else Null)
              && (reason.Some? ==> |reason.value| <= 512)
  {
  }

  // ---- resume query

  /** Python's == between a decoded value and the dictionary built for one offered file. */
  predicate EqualsFile(item: Json, f: FileMeta) {
    && item.Obj? && item.fields.Keys == {"file_id", "name", "size", "sha256"}
    && item.fields["file_id"] == Str(f.id) && item.fields["name"] == Str(f.name)
    && EqualsInt(item.fields["size"], f.size) && item.fields["sha256"] == Str(f.sha256)
  }

  function ValidateResumeQuery(payload: Json, offer: Offer): Result<(), Error> {
    if !payload.Obj? || Get(payload, "type") != Str("resume_query") then Err(ProtocolError)
    else if Get(payload, "transfer_id") != Str(offer.transferId) then Err(ProtocolError)
    else
      var files := Get(payload, "files");
      if files.List? && |files.items| == |offer.files|
         && forall i :: 0 <= i < |offer.files| ==> EqualsFile(files.items[i], offer.files[i])
      then Ok(()) else Err(ProtocolError)
  }

  /** Of all payloads exactly those pass that repeat the offer's ID and every file, in order, field by field. */
  lemma QueryIsExact(payload: Json, offer: Offer)
    ensures ValidateResumeQuery(payload, offer).Ok? <==>
              && payload.Obj? && Get(payload, "type") == Str("resume_query")
              && Get(payload, "transfer_id") == Str(offer.transferId)
              && Get(payload, "files").List? && |Get(payload, "files").items| == |offer.files|
              && forall i :: 0 <= i < |offer.files| ==>
                   var item, f := Get(payload, "files").items[i], offer.files[i];
                   && item.Obj? && item.fields.Keys == {"file_id", "name", "size", "sha256"}
                   && item.fields["file_id"] == Str(f.id) && item.fields["name"] == Str(f.name)
                   && EqualsInt(item.fields["size"], f.size) && item.fields["sha256"] == Str(f.sha256)
  {
  }

  function EncodeFile(f: FileMeta): Json {
    Obj(map["file_id" := Str(f.id), "name" := Str(f.name), "size" := Int(f.size), "sha256" := Str(f.sha256)])
  }

  function EncodeQuery(transferId: string, files: seq<FileMeta>): Json {
    Obj(map["type" := Str("resume_query"), "transfer_id" := Str(transferId),
            "files" := List(seq(|files|, i requires 0 <= i < |files| => EncodeFile(files[i])))])
  }

  /** A query passes exactly when it repeats the accepted offer, file by file and in order. */
  lemma QueryRoundTrip(transferId: string, files: seq<FileMeta>, offer: Offer)
    ensures ValidateResumeQuery(EncodeQuery(transferId, files), offer).Ok? <==>
              transferId == offer.transferId && files == offer.files
  {
    var payload := EncodeQuery(transferId, files);
    var items := Get(payload, "files").items;
    assert Get(payload, "type") == Str("resume_query") && Get(payload, "transfer_id") == Str(transferId);
    forall i | 0 <= i < |files| && i < |offer.files|
      ensures EqualsFile(items[i], offer.files[i]) <==> files[i] == offer.files[i]
    {
      assert items[i] == EncodeFile(files[i]);
    }
  }

  // ---- resume negotiation

  /** The decoded `files` list of a resume_state frame: (file_id, offset) pairs. */
  type Entries = seq<(string, int)>

  // ---- an offer over the wire

  /** The frame the client builds; an empty message is left out. */
  function EncodeOffer(offer: Offer): Json {
    var base := map["type" := Str("transfer_offer"), "version" := Int(PROTOCOL_VERSION),
                    "transfer_id" := Str(offer.transferId), "count" := Int(|offer.files|),
                    "total_size" := Int(TotalSize(offer.files)),
                    "files" :=
                      List(seq(|offer.files|, i requires 0 <= i < |offer.files| => EncodeFile(offer.files[i])))];
    Obj(if offer.message.Some? && offer.message.value != "" then base["message" := Str(offer.message.value)] else base)
  }

  predicate Offerable(f: FileMeta, validName: string -> bool) {
    IsFileId(f.id) && validName(f.name) && f.size <= MAX_FILE_SIZE && IsDigest(f.sha256)
  }

  lemma FileRoundTrip(f: FileMeta, validName: string -> bool)
    ensures GoodFile(EncodeFile(f), validName) <==> Offerable(f, validName)
    ensures Offerable(f, validName) ==> FileOf(EncodeFile(f), validName) == f
  {
    var raw := EncodeFile(f);
    assert Get(raw, "file_id") == Str(f.id) && Get(raw, "name") == Str(f.name);
    assert Get(raw, "size") == Int(f.size) && Get(raw, "sha256") == Str(f.sha256);
  }

  lemma OfferedFilesRoundTrip(raws: seq<Json>, files: seq<FileMeta>, validName: string -> bool)
    requires |raws| == |files| && forall i :: 0 <= i < |files| ==> raws[i] == EncodeFile(files[i])
    ensures (forall k :: 0 <= k < |raws| ==> GoodFile(raws[k], validName))
            <==> forall i :: 0 <= i < |files| ==> Offerable(files[i], validName)
    ensures (forall k :: 0 <= k < |raws| ==> GoodFile(raws[k], validName)) ==> FilesOf(raws, validName) == files
  {
    forall i | 0 <= i < |files|
      ensures GoodFile(raws[i], validName) <==> Offerable(files[i], validName)
      ensures Offerable(files[i], validName) ==> FileOf(raws[i], validName) == files[i]
    {
      FileRoundTrip(files[i], validName);
    }
  }

  lemma OfferFields(offer: Offer)
    ensures var p := EncodeOffer(offer);
            && Get(p, "type") == Str("transfer_offer") && Get(p, "version") == Int(PROTOCOL_VERSION)
            && Get(p, "transfer_id") == Str(offer.transferId) && Get(p, "count") == Int(|offer.files|)
            && Get(p, "total_size") == Int(TotalSize(offer.files))
            && Get(p, "files").List? && |Get(p, "files").items| == |offer.files|
            && (forall i :: 0 <= i < |offer.files| ==> Get(p, "files").items[i] == EncodeFile(offer.files[i]))
            && Get(p, "message") == if offer.message.Some? && offer.message.value != "" then Str(offer.message.value)
                                    else Null
  {
  }

  /** An offer travels intact, or is refused: the receiver accepts what the client sent exactly when ID, count,
      files, total and message are within bounds and the file IDs differ, and then reads it back as sent, an
      empty message as none. */
  method OfferOverTheWire(offer: Offer, validName: string -> bool) returns (r: Result<Offer, Error>)
    ensures r.Ok? <==>
      && IsTransferId(offer.transferId) && 1 <= |offer.files| <= MAX_FILES_PER_SESSION
      && (forall i :: 0 <= i < |offer.files| ==> Offerable(offer.files[i], validName)) && UniqueIds(offer.files)
      && TotalSize(offer.files) <= MAX_SESSION_SIZE && (offer.message.Some? ==> |offer.message.value| <= 4096)
    ensures r.Ok? ==>
      r.value == offer.(totalSize := TotalSize(offer.files),
                        message := if offer.message == Some("") then None else offer.message)
  {
    var payload := EncodeOffer(offer);
    OfferFields(offer);
    OfferedFilesRoundTrip(Get(payload, "files").items, offer.files, validName);
    r := ValidateOffer(payload, validName);
  }

  lemma IdsGrow(files: seq<FileMeta>)
    requires files != []
    ensures var k := |files| - 1;
            && Ids(files) == Ids(files[..k]) + {files[k].id}
            && (UniqueIds(files) ==> UniqueIds(files[..k]) && files[k].id !in Ids(files[..k]))
            && forall i :: 0 <= i < k ==> files[..k][i] == files[i]
  {
  }

  /** The `expected` dictionary: the offered size under each file ID. */
  function Sizes(files: seq<FileMeta>): (m: map<string, nat>)
    ensures m.Keys == Ids(files)
    ensures UniqueIds(files) ==> forall i :: 0 <= i < |files| ==> m[files[i].id] == files[i].size
  {
    if files == [] then map[]
    else
      var k := |files| - 1;
      IdsGrow(files);
      Sizes(files[..k])[files[k].id := files[k].size]
  }

  predicate GoodEntry(entry: (string, int), expected: map<string, nat>) {
    entry.0 in expected && 0 <= entry.1 <= expected[entry.0]
  }

  ghost predicate DistinctEntries(entries: Entries) {
    forall i, j :: 0 <= i < j < |entries| ==> entries[i].0 != entries[j].0
  }

  ghost predicate GoodEntries(entries: Entries, files: seq<FileMeta>) {
    && |entries| == |files|
    && DistinctEntries(entries)
    && forall i :: 0 <= i < |entries| ==> GoodEntry(entries[i], Sizes(files))
  }

  function EntryIds(entries: Entries): set<string> { set i | 0 <= i < |entries| :: entries[i].0 }

  function OffsetMap(entries: Entries): (m: map<string, int>)
    ensures m.Keys == EntryIds(entries)
    ensures DistinctEntries(entries) ==> forall i :: 0 <= i < |entries| ==> m[entries[i].0] == entries[i].1
  {
    if entries == [] then map[]
    else
      var k := |entries| - 1;
      var m := OffsetMap(entries[..k]);
      assert EntryIds(entries) == EntryIds(entries[..k]) + {entries[k].0};
      assert forall i :: 0 <= i < k ==> entries[..k][i] == entries[i];
      m[entries[k].0 := entries[k].1]
  }

  lemma {:induction false} DistinctCount(entries: Entries)
    requires DistinctEntries(entries)
    ensures |EntryIds(entries)| == |entries|
    decreases |entries|
  {
    if entries != [] {
      var k := |entries| - 1;
      DistinctCount(entries[..k]);
      assert EntryIds(entries) == EntryIds(entries[..k]) + {entries[k].0};
    }
  }

  lemma {:induction false} IdCount(files: seq<FileMeta>)
    ensures |Ids(files)| <= |files|
    decreases |files|
  {
    if files != [] {
      var k := |files| - 1;
      IdCount(files[..k]);
      assert Ids(files) == Ids(files[..k]) + {files[k].id};
    }
  }

  /** Pigeonhole: the length, membership and duplicate checks already force full coverage, so
      the "Incomplete resume state" branch is never taken. */
  lemma CoverageIsImplied(entries: Entries, files: seq<FileMeta>)
    requires GoodEntries(entries, files)
    ensures EntryIds(entries) == Ids(files)
  {
    DistinctCount(entries);
    IdCount(files);
    forall x | x in EntryIds(entries) ensures x in Ids(files) {
      var i :| 0 <= i < |entries| && entries[i].0 == x;
      assert GoodEntry(entries[i], Sizes(files));
    }
    SubsetOfSameSize(EntryIds(entries), Ids(files));
  }

  /** What the receiver sends: one entry per offered file, in offer order. */
  function EntriesFor(files: seq<FileMeta>, offsets: seq<nat>): (e: Entries)
    requires |files| == |offsets|
    ensures |e| == |files| && forall i :: 0 <= i < |files| ==> e[i] == (files[i].id, offsets[i])
  {
    seq(|files|, i requires 0 <= i < |files| => (files[i].id, offsets[i]))
  }

  lemma EntriesForGood(files: seq<FileMeta>, offsets: seq<nat>)
    requires UniqueIds(files) && |offsets| == |files|
    requires forall i :: 0 <= i < |files| ==> offsets[i] <= files[i].size
    ensures GoodEntries(EntriesFor(files, offsets), files)
  {
    var entries := EntriesFor(files, offsets);
    forall i | 0 <= i < |entries| ensures GoodEntry(entries[i], Sizes(files)) {
      assert files[i].id == entries[i].0 && 0 <= entries[i].1 <= files[i].size;
    }
  }

  lemma EntriesForBounded(files: seq<FileMeta>, offsets: seq<nat>, k: nat)
    requires UniqueIds(files) && |offsets| == |files| && k < |files|
    requires GoodEntries(EntriesFor(files, offsets), files)
    ensures offsets[k] <= files[k].size
  {
    var entries := EntriesFor(files, offsets);
    assert GoodEntry(entries[k], Sizes(files)) && entries[k].0 == files[k].id;
  }

  /** Negotiation is exact: what the receiver builds is accepted exactly when every offset is
      within its file, and the sender then holds the receiver's offset for every file. */
  lemma NegotiationIsExact(files: seq<FileMeta>, offsets: seq<nat>)
    requires UniqueIds(files) && |offsets| == |files|
    ensures GoodEntries(EntriesFor(files, offsets), files)
            <==> forall i :: 0 <= i < |files| ==> offsets[i] <= files[i].size
    ensures forall i :: 0 <= i < |files| ==>
              files[i].id in OffsetMap(EntriesFor(files, offsets))
              && OffsetMap(EntriesFor(files, offsets))[files[i].id] == offsets[i]
  {
    var entries := EntriesFor(files, offsets);
    forall i | 0 <= i < |files|
      ensures files[i].id in OffsetMap(entries) && OffsetMap(entries)[files[i].id] == offsets[i]
    {
      assert entries[i].0 == files[i].id && entries[i].0 in EntryIds(entries);
    }
    if forall i :: 0 <= i < |files| ==> offsets[i] <= files[i].size {
      EntriesForGood(files, offsets);
    }
    if GoodEntries(entries, files) {
      forall i | 0 <= i < |files| ensures offsets[i] <= files[i].size {
        EntriesForBounded(files, offsets, i);
      }
    }
  }

  ghost predicate TypedItem(item: Json) {
    item.Obj? && Get(item, "file_id").Str? && Get(item, "offset").Int?
  }

  ghost function EntryOf(item: Json): (string, int) {
    if TypedItem(item) then (Get(item, "file_id").s, Get(item, "offset").i) else ("", -1)
  }

  ghost function EntriesOf(items: seq<Json>): (e: Entries)
    ensures |e| == |items| && forall i :: 0 <= i < |items| ==> e[i] == EntryOf(items[i])
  {
    seq(|items|, i requires 0 <= i < |items| => EntryOf(items[i]))
  }

  ghost predicate GoodItems(items: seq<Json>, files: seq<FileMeta>) {
    && (forall k :: 0 <= k < |items| ==> TypedItem(items[k]))
    && GoodEntries(EntriesOf(items), files)
  }

  ghost predicate GoodResumeState(payload: Json, offer: Offer) {
    && payload.Obj? && Get(payload, "type") == Str("resume_state")
    && Get(payload, "transfer_id") == Str(offer.transferId)
    && Get(payload, "files").List?
    && GoodItems(Get(payload, "files").items, offer.files)
  }

  lemma ExtendEntries(entries: Entries, entry: (string, int))
    requires DistinctEntries(entries) && entry.0 !in EntryIds(entries)
    ensures DistinctEntries(entries + [entry])
    ensures OffsetMap(entries + [entry]) == OffsetMap(entries)[entry.0 := entry.1]
  {
    var longer := entries + [entry];
    assert longer[..|entries|] == entries;
    forall i | 0 <= i < |entries| ensures longer[i].0 != entry.0 {
      assert entries[i].0 in EntryIds(entries);
    }
  }

  predicate Readable(item: Json, expected: map<string, nat>, seen: set<string>) {
    && item.Obj? && Get(item, "file_id").Str? && Get(item, "offset").Int?
    && GoodEntry((Get(item, "file_id").s, Get(item, "offset").i), expected) && Get(item, "file_id").s !in seen
  }

  /** One pass of the loop: the item is typed, names an offered file not seen before, and its
      offset is within that file. */
  method ReadEntry(item: Json, expected: map<string, nat>, seen: set<string>)
    returns (r: Result<(string, int), Error>)
    ensures r.Ok? <==> Readable(item, expected, seen)
    ensures r.Ok? ==> r.value == EntryOf(item)
  {
    if !item.Obj? { return Err(ProtocolError); }
    var fileId := Get(item, "file_id");
    if fileId.List? || fileId.Obj? { return Err(UnhashableKey); }
    if !fileId.Str? || fileId.s !in expected { return Err(ProtocolError); }
    var offset := Get(item, "offset");
    if fileId.s in seen || !offset.Int? || !(0 <= offset.i <= expected[fileId.s]) { return Err(ProtocolError); }
    return Ok((fileId.s, offset.i));
  }

  ghost predicate EntriesRead(items: seq<Json>, k: nat, expected: map<string, nat>, offsets: map<string, int>)
    requires k <= |items|
  {
    && (forall j :: 0 <= j < k ==> TypedItem(items[j]) && GoodEntry(EntryOf(items[j]), expected))
    && DistinctEntries(EntriesOf(items[..k]))
    && offsets == OffsetMap(EntriesOf(items[..k]))
  }

  lemma ReadOneMoreEntry(items: seq<Json>, k: nat, expected: map<string, nat>, offsets: map<string, int>)
    requires k < |items| && EntriesRead(items, k, expected, offsets)
    requires Readable(items[k], expected, offsets.Keys)
    ensures EntriesRead(items, k + 1, expected, offsets[EntryOf(items[k]).0 := EntryOf(items[k]).1])
  {
    var entries := EntriesOf(items[..k]);
    assert EntriesOf(items[..k + 1]) == entries + [EntryOf(items[k])];
    ExtendEntries(entries, EntryOf(items[k]));
  }

  /** In a good list every item can be read: a repeat or an odd entry rules the list out. */
  lemma GoodItemsAreReadable(items: seq<Json>, k: nat, files: seq<FileMeta>, offsets: map<string, int>)
    requires k < |items| && EntriesRead(items, k, Sizes(files), offsets) && GoodItems(items, files)
    ensures Readable(items[k], Sizes(files), offsets.Keys)
  {
    var entries, all := EntriesOf(items[..k]), EntriesOf(items);
    assert GoodEntry(all[k], Sizes(files));
    forall j | 0 <= j < k ensures entries[j].0 != EntryOf(items[k]).0 {
      assert all[j].0 != all[k].0;
    }
  }

  lemma AllEntriesRead(items: seq<Json>, files: seq<FileMeta>, offsets: map<string, int>)
    requires UniqueIds(files) && |items| == |files| && EntriesRead(items, |items|, Sizes(files), offsets)
    ensures GoodItems(items, files) && offsets == OffsetMap(EntriesOf(items)) && offsets.Keys == Ids(files)
  {
    assert items[..|items|] == items;
    CoverageIsImplied(EntriesOf(items), files);
  }

  method ReadLoop(items: seq<Json>, files: seq<FileMeta>, expected: map<string, nat>)
    returns (r: Result<map<string, int>, Error>)
    requires expected == Sizes(files)
    ensures r.Ok? ==> EntriesRead(items, |items|, expected, r.value)
    ensures r.Err? ==> !GoodItems(items, files)
  {
    var offsets: map<string, int> := map[];
    var k := 0;
    while k < |items|
      invariant 0 <= k <= |items|
      invariant EntriesRead(items, k, expected, offsets)
    {
      if GoodItems(items, files) { GoodItemsAreReadable(items, k, files, offsets); }
      var entry := ReadEntry(items[k], expected, offsets.Keys);
      if entry.Err? { return Err(entry.error); }
      ReadOneMoreEntry(items, k, expected, offsets);
      offsets := offsets[entry.value.0 := entry.value.1];
      k := k + 1;
    }
    return Ok(offsets);
  }

  method ReadEntries(items: seq<Json>, files: seq<FileMeta>) returns (r: Result<map<string, int>, Error>)
    requires UniqueIds(files) && |items| == |files|
    ensures r.Ok? <==> GoodItems(items, files)
    ensures r.Ok? ==> r.value == OffsetMap(EntriesOf(items)) && r.value.Keys == Ids(files)
  {
    var expected := Sizes(files);
    r := ReadLoop(items, files, expected);
    if r.Ok? {
      AllEntriesRead(items, files, r.value);
      if r.value.Keys != expected.Keys {
        assert false;
      }
    }
  }

  /** validate_resume_state accepts exactly the good payloads and returns their offsets. */
  method ValidateResumeState(payload: Json, offer: Offer) returns (r: Result<map<string, int>, Error>)
    requires UniqueIds(offer.files)
    ensures r.Ok? <==> GoodResumeState(payload, offer)
    ensures r.Ok? ==> r.value == OffsetMap(EntriesOf(Get(payload, "files").items))
    ensures r.Ok? ==> r.value.Keys == Ids(offer.files)
  {
    if !payload.Obj? || Get(payload, "type") != Str("resume_state") { return Err(ProtocolError); }
    if Get(payload, "transfer_id") != Str(offer.transferId) { return Err(ProtocolError); }
    var rawFiles := Get(payload, "files");
    if !rawFiles.List? || |rawFiles.items| != |offer.files| { return Err(ProtocolError); }
    r := ReadEntries(rawFiles.items, offer.files);
  }

  function EncodeEntry(entry: (string, int)): Json { Obj(map["file_id" := Str(entry.0), "offset" := Int(entry.1)]) }

  function EncodeState(transferId: string, entries: Entries): Json {
    Obj(map["type" := Str("resume_state"), "transfer_id" := Str(transferId),
            "files" := List(seq(|entries|, i requires 0 <= i < |entries| => EncodeEntry(entries[i])))])
  }

  /** The frame built from any entries is accepted exactly when ID and entries fit the offer, and the
      sender reads the entries back. */
  lemma StateRoundTrip(transferId: string, entries: Entries, offer: Offer)
    ensures var payload := EncodeState(transferId, entries);
            && (GoodResumeState(payload, offer)
                <==> transferId == offer.transferId && GoodEntries(entries, offer.files))
            && Get(payload, "files").List? && EntriesOf(Get(payload, "files").items) == entries
  {
    var payload := EncodeState(transferId, entries);
    assert Get(payload, "type") == Str("resume_state") && Get(payload, "transfer_id") == Str(transferId);
    var items := Get(payload, "files").items;
    forall i | 0 <= i < |entries| ensures TypedItem(items[i]) && EntryOf(items[i]) == entries[i] {
      assert items[i] == EncodeEntry(entries[i]);
      assert Get(items[i], "file_id") == Str(entries[i].0) && Get(items[i], "offset") == Int(entries[i].1);
    }
    assert EntriesOf(items) == entries;
  }

  /** The receiver's resume_state, as it goes over the wire: accepted exactly when every planned offset
      is within its file, and then the sender's offsets are the plans'. */
  method NegotiateOverTheWire(offer: Offer, offsets: seq<nat>) returns (r: Result<map<string, int>, Error>)
    requires UniqueIds(offer.files) && |offsets| == |offer.files|
    ensures r.Ok? <==> forall i :: 0 <= i < |offer.files| ==> offsets[i] <= offer.files[i].size
    ensures r.Ok? ==> forall i :: 0 <= i < |offer.files| ==>
              offer.files[i].id in r.value && r.value[offer.files[i].id] == offsets[i]
  {
    var entries := EntriesFor(offer.files, offsets);
    StateRoundTrip(offer.transferId, entries, offer);
    NegotiationIsExact(offer.files, offsets);
    r := ValidateResumeState(EncodeState(offer.transferId, entries), offer);
  }
}
