/** The cover endpoint, app/api/cover/route.ts: the check that a reply is
    an image, the content type and file extension chosen for it, the loop
    that tries each Hugging Face model up to three times, and the guards
    before it. The image service, the clock, storage and the database are
    inputs. */
module CoverRoute {
  import opened Common

  newtype byte = x: int | 0 <= x < 256

  /** The signatures the route accepts: JPEG, PNG and RIFF (WebP). */
  const JpegMagic: seq<byte> := [0xFF, 0xD8]
  const PngMagic: seq<byte> := [0x89, 0x50, 0x4E, 0x47]
  const RiffMagic: seq<byte> := [0x52, 0x49, 0x46, 0x46]

  /** `isImageBuffer`: at least four bytes, starting with one of the
      signatures. */
  function IsImageBuffer(buf: seq<byte>): (r: bool)
    ensures r <==> |buf| >= 4 && (buf[..2] == JpegMagic || buf[..4] == PngMagic || buf[..4] == RiffMagic)
  {
    if |buf| < 4 then false
    else
      var jpeg := buf[0] == 0xFF && buf[1] == 0xD8;
      var png := buf[0] == 0x89 && buf[1] == 0x50 && buf[2] == 0x4E && buf[3] == 0x47;
      var webp := buf[0] == 0x52 && buf[1] == 0x49 && buf[2] == 0x46 && buf[3] == 0x46;
      assert buf[..2] == [buf[0], buf[1]] && buf[..4] == [buf[0], buf[1], buf[2], buf[3]];
      jpeg || png || webp
  }

  /** Only the first four bytes decide, and every signature followed by
      enough bytes passes. */
  lemma {:induction false} ImageDecidedByHeader(buf: seq<byte>, more: seq<byte>)
    ensures |buf| >= 4 ==> IsImageBuffer(buf + more) == IsImageBuffer(buf[..4])
    ensures |buf| < 4 && |buf + more| >= 4 ==> !IsImageBuffer(buf) && IsImageBuffer(buf + more) == IsImageBuffer((buf + more)[..4])
    ensures |more| >= 2 ==> IsImageBuffer(JpegMagic + more)
    ensures IsImageBuffer(PngMagic + more) && IsImageBuffer(RiffMagic + more)
  {
    if |buf| >= 4 {
      assert (buf + more)[..4] == buf[..4];
      assert (buf + more)[..4][..2] == (buf + more)[..2] && buf[..4][..2] == buf[..2];
    }
    if |buf + more| >= 4 {
      var all := buf + more;
      assert all[..4][..2] == all[..2];
    }
    if |more| >= 2 {
      assert (JpegMagic + more)[..2] == JpegMagic;
    }
    assert (PngMagic + more)[..4] == PngMagic;
    assert (RiffMagic + more)[..4] == RiffMagic;
  }

  datatype ImageResult = ImageResult(buffer: seq<byte>, contentType: string, ext: string)

  /** The content type and extension for a reply whose blob type is
      `blobType`: "image/png" when the type is empty; PNG exactly when the
      type mentions "png", JPEG otherwise. */
  function ChooseFormat(blobType: string): (r: (string, string))
    ensures r == ("image/png", "png") || r == ("image/jpeg", "jpg")
    ensures r.1 == "png" <==> blobType == "" || Includes(blobType, "png")
  {
    var contentType := if blobType == "" then "image/png" else blobType;
    if Includes(contentType, "png") then ("image/png", "png") else ("image/jpeg", "jpg")
  }

  /** `HF_MODELS`, tried in this order. */
  const HfModels: seq<string> := ["black-forest-labs/FLUX.1-schnell", "black-forest-labs/FLUX.1-dev",
                                  "stabilityai/stable-diffusion-xl-base-1.0"]
  const AttemptsPerModel := 3
  const InvalidImage := "Invalid image response"

  /** What one call to `textToImage` gives: a blob with its bytes and
      type, or a throw with its message. */
  datatype AttemptReply = Blob(bytes: seq<byte>, blobType: string) | Failed(message: string)

  /** How the generation ends: an image, or none with the last error. */
  datatype Generation = Generated(image: ImageResult) | NotGenerated(lastError: string)

  /** The generation from model `m`, attempt `attempt` on, with `lastError`
      so far; `reply(model, k)` is the service's answer to the `k`-th
      attempt on `model`. */
  function Generate(m: nat, attempt: nat, lastError: string, reply: (string, nat) -> AttemptReply): (r: Generation)
    ensures r.Generated? ==> IsImageBuffer(r.image.buffer) && (r.image.ext == "png" || r.image.ext == "jpg")
    ensures r.NotGenerated? ==> r.lastError != ""
    ensures r.NotGenerated? && lastError != "" && m >= |HfModels| ==> r.lastError == lastError
    decreases |HfModels| - m, AttemptsPerModel - attempt
  {
    if m >= |HfModels| then NotGenerated(if lastError == "" then "Unknown error" else lastError)
    else if attempt >= AttemptsPerModel then Generate(m + 1, 0, lastError, reply)
    else match reply(HfModels[m], attempt)
      case Failed(message) => Generate(m, attempt + 1, message, reply)
      case Blob(bytes, blobType) =>
        if !IsImageBuffer(bytes) then Generate(m + 1, 0, InvalidImage, reply)
        else
          var (contentType, ext) := ChooseFormat(blobType);
          Generated(ImageResult(bytes, contentType, ext))
  }

  /** `generateImageWithHuggingFace`, its two loops as written. */
  method GenerateImage(reply: (string, nat) -> AttemptReply) returns (g: Generation)
    ensures g == Generate(0, 0, "", reply)
  {
    var lastError := "";
    var m := 0;
    while m < |HfModels|
      invariant 0 <= m <= |HfModels|
      invariant Generate(m, 0, lastError, reply) == Generate(0, 0, "", reply)
    {
      var attempt := 0;
      var abandoned := false;
      while attempt < AttemptsPerModel && !abandoned
        invariant 0 <= attempt <= AttemptsPerModel
        invariant !abandoned ==> Generate(m, attempt, lastError, reply) == Generate(0, 0, "", reply)
        invariant abandoned ==> Generate(m + 1, 0, lastError, reply) == Generate(0, 0, "", reply)
        decreases AttemptsPerModel - attempt, if abandoned then 0 else 1
      {
        var r := reply(HfModels[m], attempt);
        if r.Failed? {
          lastError := r.message;
          attempt := attempt + 1;
        } else if !IsImageBuffer(r.bytes) {
          lastError := InvalidImage;
          abandoned := true;
        } else {
          var (contentType, ext) := ChooseFormat(r.blobType);
          return Generated(ImageResult(r.bytes, contentType, ext));
        }
      }
      m := m + 1;
    }
    g := NotGenerated(if lastError == "" then "Unknown error" else lastError);
  }

  /** A generated image is one the signature check accepts, with a
      content type and extension that agree; a failure always carries an
      error. */
  lemma {:induction false} GenerateSound(m: nat, attempt: nat, lastError: string, reply: (string, nat) -> AttemptReply)
    ensures var g := Generate(m, attempt, lastError, reply);
      && (g.Generated? ==> (IsImageBuffer(g.image.buffer)
                            && ((g.image.contentType, g.image.ext) == ("image/png", "png")
                                || (g.image.contentType, g.image.ext) == ("image/jpeg", "jpg"))))
      && (g.NotGenerated? ==> g.lastError != "")
    decreases |HfModels| - m, AttemptsPerModel - attempt
  {
    if m < |HfModels| {
      if attempt >= AttemptsPerModel {
        GenerateSound(m + 1, 0, lastError, reply);
      } else {
        match reply(HfModels[m], attempt)
        case Failed(message) => GenerateSound(m, attempt + 1, message, reply);
        case Blob(bytes, blobType) =>
          if !IsImageBuffer(bytes) {
            GenerateSound(m + 1, 0, InvalidImage, reply);
          }
      }
    }
  }

  /** Replies that agree on every attempt still to come give the same
      generation: attempts beyond the third are never made, and attempts
      already past are never repeated. */
  lemma {:induction false} GenerateUsesOnlyLaterAttempts(m: nat, attempt: nat, lastError: string,
                                                         r1: (string, nat) -> AttemptReply, r2: (string, nat) -> AttemptReply)
    requires forall x: nat, k: nat :: m <= x < |HfModels| && (x > m || attempt <= k) && k < AttemptsPerModel ==>
      r1(HfModels[x], k) == r2(HfModels[x], k)
    ensures Generate(m, attempt, lastError, r1) == Generate(m, attempt, lastError, r2)
    decreases |HfModels| - m, AttemptsPerModel - attempt
  {
    if m < |HfModels| {
      if attempt >= AttemptsPerModel {
        GenerateUsesOnlyLaterAttempts(m + 1, 0, lastError, r1, r2);
      } else {
        assert r1(HfModels[m], attempt) == r2(HfModels[m], attempt);
        match r1(HfModels[m], attempt)
        case Failed(message) => GenerateUsesOnlyLaterAttempts(m, attempt + 1, message, r1, r2);
        case Blob(bytes, _) =>
          if !IsImageBuffer(bytes) {
            GenerateUsesOnlyLaterAttempts(m + 1, 0, InvalidImage, r1, r2);
          }
      }
    }
  }

  /** A reply that is not an image abandons its model: what that model
      would answer to later attempts does not matter. */
  lemma {:induction false} NonImageAbandonsModel(m: nat, attempt: nat, lastError: string,
                              r1: (string, nat) -> AttemptReply, r2: (string, nat) -> AttemptReply)
    requires m < |HfModels| && attempt < AttemptsPerModel
    requires r1(HfModels[m], attempt).Blob? && !IsImageBuffer(r1(HfModels[m], attempt).bytes)
    requires r1(HfModels[m], attempt) == r2(HfModels[m], attempt)
    requires forall x: nat, k: nat :: m < x < |HfModels| && k < AttemptsPerModel ==> r1(HfModels[x], k) == r2(HfModels[x], k)
    ensures Generate(m, attempt, lastError, r1) == Generate(m, attempt, lastError, r2)
  {
    GenerateUsesOnlyLaterAttempts(m + 1, 0, InvalidImage, r1, r2);
  }

  /** An attempt that gives an image ends the search with it, in the
      format its blob type chooses, whatever came before. */
  lemma {:induction false} FirstImageWins(m: nat, attempt: nat, lastError: string, reply: (string, nat) -> AttemptReply)
    requires m < |HfModels| && attempt < AttemptsPerModel
    requires reply(HfModels[m], attempt).Blob? && IsImageBuffer(reply(HfModels[m], attempt).bytes)
    ensures var b := reply(HfModels[m], attempt);
      Generate(m, attempt, lastError, reply)
        == Generated(ImageResult(b.bytes, ChooseFormat(b.blobType).0, ChooseFormat(b.blobType).1))
  {
  }

  /** When every attempt throws, all nine are made and the result is none,
      with the message of the last one ("Unknown error" when empty). */
  lemma {:induction false} AllThrowsKeepLastError(m: nat, attempt: nat, lastError: string, reply: (string, nat) -> AttemptReply)
    requires m < |HfModels| && attempt < AttemptsPerModel
    requires forall x: nat, k: nat :: x < |HfModels| && k < AttemptsPerModel ==> reply(HfModels[x], k).Failed?
    ensures var last := reply(HfModels[|HfModels| - 1], AttemptsPerModel - 1).message;
      Generate(m, attempt, lastError, reply) == NotGenerated(if last == "" then "Unknown error" else last)
    decreases |HfModels| - m, AttemptsPerModel - attempt
  {
    var message := reply(HfModels[m], attempt).message;
    if attempt + 1 < AttemptsPerModel {
      AllThrowsKeepLastError(m, attempt + 1, message, reply);
    } else if m + 1 < |HfModels| {
      AllThrowsKeepLastError(m + 1, 0, message, reply);
    } else {
      assert Generate(m, attempt + 1, message, reply) == Generate(m + 1, 0, message, reply);
    }
  }

  // ---------------------------------------------------------------------
  // POST
  // ---------------------------------------------------------------------

  /** The columns of `story_rooms` the route reads. */
  datatype CoverRoom = CoverRoom(title: string, genre: string, isCompleted: bool, createdBy: string)

  /** The writes: the uploaded file, and the room's cover URL with its
      update time. */
  datatype CoverEffect = Uploaded(path: string, contentType: string) | CoverSaved(roomId: string, coverUrl: string, updatedAtMs: int)

  datatype CoverReply = CoverOk(coverUrl: string) | CoverError(status: int, error: string, detail: Option<string>)

  const LoginRequired := "로그인이 필요합니다"
  const StoryNotFound := "스토리를 찾을 수 없습니다"
  const OnlyCompleted := "완성된 스토리만 표지를 생성할 수 있습니다"
  const OnlyCreator := "스토리 생성자만 표지를 생성할 수 있습니다"
  const NoToken := "표지 생성을 사용하려면 .env.local에 HUGGINGFACE_TOKEN을 설정해주세요. (huggingface.co/settings/tokens)"
  const GenerationFailed := "이미지 생성에 실패했습니다. 나중에 다시 시도하거나 '나중에 하기'를 선택해주세요."
  const UploadFailed := "이미지 업로드에 실패했습니다. Supabase Storage에 'covers' 버킷을 생성해주세요."
  const SaveFailed := "표지 저장에 실패했습니다"

  const PromptHead := "Book cover illustration for a collaborative story titled \""
  const PromptGenre := "\" (genre: "
  const PromptStyle := "). Atmospheric, suitable for a novel cover. No text on the image. Portrait, 3:4 aspect ratio."

  /** The prompt sent to the image service: the title in quotes, then the
      genre, then the fixed style instructions. */
  function CoverPrompt(room: CoverRoom): (r: string)
    ensures OccursAt(r, room.title, |PromptHead|)
    ensures OccursAt(r, room.genre, |PromptHead| + |room.title| + |PromptGenre|)
    ensures r[..|PromptHead|] == PromptHead
  {
    var front := PromptHead + room.title + PromptGenre;
    var r := front + room.genre + PromptStyle;
    assert r[..|PromptHead|] == PromptHead;
    assert r[|PromptHead|..|PromptHead| + |room.title|] == room.title;
    assert r[|front|..|front| + |room.genre|] == room.genre;
    r
  }

  /** `` `${roomId}-${Date.now()}.${ext}` `` */
  function CoverFileName(roomId: string, nowMs: int, ext: string): (r: string)
    ensures |r| > |roomId| + 2 + |ext|
    ensures r[..|roomId|] == roomId && r[|roomId|] == '-'
    ensures r[|r| - |ext|..] == ext && r[|r| - |ext| - 1] == '.'
  {
    roomId + "-" + IntToString(nowMs) + "." + ext
  }

  /** The input the route works with once the request is read. */
  datatype CoverRequest = CoverRequest(
    roomId: Option<string>, user: Option<string>, room: Option<CoverRoom>, token: Option<string>)

  /** The request names a room: `roomId` is present and not empty. */
  predicate HasRoomId(req: CoverRequest) {
    req.roomId.Some? && req.roomId.value != ""
  }

  /** The signed-in user created the room the request names, and it is
      complete. */
  predicate MayCover(req: CoverRequest) {
    req.user.Some? && req.room.Some? && req.room.value.isCompleted && req.room.value.createdBy == req.user.value
  }

  /** The guards, in order: the first one that fails answers. A missing
      room id is 400; then no user is 401, no room 404, an unfinished room
      400, another user's room 403, and no usable token 503. */
  function CoverGuard(req: CoverRequest): (r: Option<CoverReply>)
    ensures !HasRoomId(req) ==> r == Some(CoverError(400, NoRoomId, None))
    ensures HasRoomId(req) && req.user.None? ==> r == Some(CoverError(401, LoginRequired, None))
    ensures HasRoomId(req) && req.user.Some? && req.room.None? ==> r == Some(CoverError(404, StoryNotFound, None))
    ensures HasRoomId(req) && req.user.Some? && req.room.Some? && !req.room.value.isCompleted
            ==> r == Some(CoverError(400, OnlyCompleted, None))
    ensures HasRoomId(req) && req.user.Some? && req.room.Some? && req.room.value.isCompleted
            && req.room.value.createdBy != req.user.value
            ==> r == Some(CoverError(403, OnlyCreator, None))
    ensures HasRoomId(req) && MayCover(req) && (req.token.None? || Trim(req.token.value) == "")
            ==> r == Some(CoverError(503, NoToken, None))
    ensures r.Some? ==> r.value.CoverError? && r.value.detail.None? && r.value.status in {400, 401, 403, 404, 503}
    ensures r.None? <==> (req.roomId.Some? && req.roomId.value != "" && req.user.Some? && req.room.Some?
      && req.room.value.isCompleted && req.room.value.createdBy == req.user.value
      && req.token.Some? && Trim(req.token.value) != "")
  {
    if req.roomId.None? || req.roomId.value == "" then Some(CoverError(400, NoRoomId, None))
    else if req.user.None? then Some(CoverError(401, LoginRequired, None))
    else if req.room.None? then Some(CoverError(404, StoryNotFound, None))
    else if !req.room.value.isCompleted then Some(CoverError(400, OnlyCompleted, None))
    else if req.room.value.createdBy != req.user.value then Some(CoverError(403, OnlyCreator, None))
    else if req.token.None? || Trim(req.token.value) == "" then Some(CoverError(503, NoToken, None))
    else None
  }

  const NoRoomId := "roomId is required"

  /** `POST(request)`. `bodyError` is the message of a body that does not
      parse; `user` is `None` when the session lookup errs or finds no one;
      `room` is `None` when the lookup errs or finds nothing; `token` is
      `HUGGINGFACE_TOKEN`; `reply` is the image service; `uploadOk` and
      `updateOk` say whether storage and the row update succeed, and
      `publicUrl` is the uploaded file's address; `nowMs` is the clock,
      read for the file name and for the row's `updated_at`. Returns the
      reply and the writes made. */
  function Post(bodyError: Option<string>, req: CoverRequest, reply: (string, nat) -> AttemptReply, nowMs: int,
                uploadOk: bool, publicUrl: string, updateOk: bool): (r: (CoverReply, seq<CoverEffect>))
    ensures r.1 != [] ==> bodyError.None? && CoverGuard(req).None?
    ensures r.0.CoverOk? <==> bodyError.None? && CoverGuard(req).None? && Generate(0, 0, "", reply).Generated?
                              && uploadOk && updateOk
    ensures bodyError.Some? ==> r == (CoverError(500, bodyError.value, None), [])
    ensures bodyError.None? && CoverGuard(req).Some? ==> r == (CoverGuard(req).value, [])
    ensures bodyError.None? && CoverGuard(req).None? && Generate(0, 0, "", reply).NotGenerated?
            ==> r == (CoverError(502, GenerationFailed, Some(Generate(0, 0, "", reply).lastError)), [])
  {
    if bodyError.Some? then (CoverError(500, bodyError.value, None), [])
    else match CoverGuard(req)
      case Some(refusal) => (refusal, [])
      case None =>
        match Generate(0, 0, "", reply)
          case NotGenerated(lastError) => (CoverError(502, GenerationFailed, Some(lastError)), [])
          case Generated(image) =>
            var upload := Uploaded(CoverFileName(req.roomId.value, nowMs, image.ext), image.contentType);
            if !uploadOk then (CoverError(500, UploadFailed, None), [upload])
            else if !updateOk then (CoverError(500, SaveFailed, None), [upload, CoverSaved(req.roomId.value, publicUrl, nowMs)])
            else (CoverOk(publicUrl), [upload, CoverSaved(req.roomId.value, publicUrl, nowMs)])
  }

  /** A refused request writes nothing and never reaches the image
      service: its reply does not depend on the service. */
  lemma {:induction false} RefusalCallsNothing(bodyError: Option<string>, req: CoverRequest, r1: (string, nat) -> AttemptReply,
                            r2: (string, nat) -> AttemptReply, nowMs: int, uploadOk: bool, publicUrl: string, updateOk: bool)
    requires bodyError.Some? || CoverGuard(req).Some?
    ensures Post(bodyError, req, r1, nowMs, uploadOk, publicUrl, updateOk)
         == Post(bodyError, req, r2, nowMs, uploadOk, publicUrl, updateOk)
    ensures Post(bodyError, req, r1, nowMs, uploadOk, publicUrl, updateOk).1 == []
  {
  }

  /** An accepted request that gets an image uploads it as
      `{roomId}-{timestamp}.{png|jpg}` with a matching content type, and
      on success saves the public address on the room and returns it. */
  lemma {:induction false} UploadNamedAfterRoom(req: CoverRequest, reply: (string, nat) -> AttemptReply, nowMs: int,
                             uploadOk: bool, publicUrl: string, updateOk: bool)
    requires CoverGuard(req).None? && Generate(0, 0, "", reply).Generated?
    ensures var (answer, writes) := Post(None, req, reply, nowMs, uploadOk, publicUrl, updateOk);
      var image := Generate(0, 0, "", reply).image;
      && writes != []
      && writes[0] == Uploaded(CoverFileName(req.roomId.value, nowMs, image.ext), image.contentType)
      && (image.ext == "png" || image.ext == "jpg")
      && (image.contentType == "image/png" <==> image.ext == "png")
      && (answer.CoverOk? ==> answer.coverUrl == publicUrl && writes == [writes[0], CoverSaved(req.roomId.value, publicUrl, nowMs)])
  {
    GenerateSound(0, 0, "", reply);
  }
}
