/**
 Chunked file transfer: a host that reassembles uploads, several at a time, and slices downloads.
 */
module ChunkTransfer {
  import opened Wrappers
  import opened Base64

  const CHUNK_SIZE := 256 * 1024

  type UploadId = string

  // ---------------------------------------------------------------------------------------------
  // Uploads

  datatype Upload = Upload(name: string, size: int, nextIndex: nat, data: seq<Byte>)

  /** Numbers and chunk data are `None` where reading them from the message raises an error. */
  datatype Request =
    | Start(id: UploadId, name: string, size: Option<int>)
    | Chunk(id: UploadId, index: Option<int>, data: Option<seq<Byte>>)
    | Finish(id: UploadId)
    | Cancel(id: UploadId)

  datatype Response = Received(bytes: nat) | Finished(upload: Upload) | Cancelled | Rejected

  type Uploads = map<UploadId, Upload>

  function Handle(uploads: Uploads, r: Request): (Uploads, Response) {
    match r
    case Start(id, name, size) =>
      if size.None? then (uploads, Rejected)
      else (uploads[id := Upload(name, size.value, 0, [])], Received(0))
    case Chunk(id, index, data) =>
      if id !in uploads || index.None? || index.value != uploads[id].nextIndex || data.None? then (uploads, Rejected)
      else
        var u := uploads[id];
        var stored := u.data + data.value;
        (uploads[id := u.(data := stored, nextIndex := u.nextIndex + 1)], Received(|stored|))
    case Finish(id) =>
      if id !in uploads then (uploads, Rejected)
      else (uploads - {id}, if |uploads[id].data| == uploads[id].size then Finished(uploads[id]) else Rejected)
    case Cancel(id) => (uploads - {id}, Cancelled)
  }

  class Host {
    var uploads: Uploads

    constructor ()
      ensures uploads == map[]
    {
      uploads := map[];
    }

    method FileUpload(r: Request) returns (response: Response)
      modifies this
      ensures (uploads, response) == Handle(old(uploads), r)
    {
      response := Rejected;
      match r {
        case Start(id, name, size) =>
          if size.Some? {
            uploads := uploads[id := Upload(name, size.value, 0, [])];
            response := Received(0);
          }
        case Chunk(id, index, data) =>
          if id in uploads {
            var upload := uploads[id];
            if index.Some? && index.value == upload.nextIndex && data.Some? {
              upload := upload.(data := upload.data + data.value);
              upload := upload.(nextIndex := upload.nextIndex + 1);
              uploads := uploads[id := upload];
              response := Received(|upload.data|);
            }
          }
        case Finish(id) =>
          if id in uploads {
            var upload := uploads[id];
            uploads := uploads - {id};
            if |upload.data| == upload.size {
              response := Finished(upload);
            }
          }
        case Cancel(id) =>
          uploads := uploads - {id};
          response := Cancelled;
      }
    }
  }

  function After(rs: seq<Request>): Uploads {
    if rs == [] then map[] else Handle(After(rs[..|rs| - 1]), rs[|rs| - 1]).0
  }

  function Answer(rs: seq<Request>, i: nat): Response
    requires i < |rs|
  {
    Handle(After(rs[..i]), rs[i]).1
  }

  // ---------------------------------------------------------------------------------------------
  // The reference: one upload's history, told by its own messages

  datatype Session = Session(name: string, size: int, chunks: seq<seq<Byte>>)

  function Concat(parts: seq<seq<Byte>>): seq<Byte> {
    if parts == [] then [] else Concat(parts[..|parts| - 1]) + parts[|parts| - 1]
  }

  /** What an upload has collected since it was last started, if it is still open. */
  function OpenSession(rs: seq<Request>, id: UploadId): Option<Session> {
    if rs == [] then None else SessionStep(OpenSession(rs[..|rs| - 1], id), rs[|rs| - 1], id)
  }

  function SessionStep(before: Option<Session>, r: Request, id: UploadId): Option<Session> {
    if r.id != id then before
    else match r
      case Start(_, name, size) => if size.None? then before else Some(Session(name, size.value, []))
      case Chunk(_, index, data) =>
        if before.Some? && index == Some(|before.value.chunks|) && data.Some?
        then Some(before.value.(chunks := before.value.chunks + [data.value]))
        else before
      case Finish(_) => None
      case Cancel(_) => None
  }

  /** The table holds the upload exactly if it is open, with what the session says. */
  ghost predicate Holds(uploads: Uploads, id: UploadId, s: Option<Session>) {
    if s.None? then id !in uploads
    else id in uploads
         && uploads[id] == Upload(s.value.name, s.value.size, |s.value.chunks|, Concat(s.value.chunks))
  }

  lemma ConcatMore(parts: seq<seq<Byte>>, part: seq<Byte>)
    ensures Concat(parts + [part]) == Concat(parts) + part
  {
    assert (parts + [part])[..|parts|] == parts;
  }

  lemma HoldsStep(uploads: Uploads, r: Request, id: UploadId, s: Option<Session>)
    requires Holds(uploads, id, s)
    ensures Holds(Handle(uploads, r).0, id, SessionStep(s, r, id))
  {
    if r.id == id && r.Chunk? && s.Some? && r.data.Some? {
      ConcatMore(s.value.chunks, r.data.value);
    }
  }

  lemma {:induction false} HostHoldsSessions(rs: seq<Request>, id: UploadId)
    ensures Holds(After(rs), id, OpenSession(rs, id))
  {
    hide Holds, Handle, SessionStep;
    if rs == [] {
      NothingHeld(id);
    } else {
      var front, r := rs[..|rs| - 1], rs[|rs| - 1];
      HostHoldsSessions(front, id);
      HoldsStep(After(front), r, id, OpenSession(front, id));
    }
  }

  lemma NothingHeld(id: UploadId)
    ensures Holds(map[], id, None)
  {}

  /** Request `i` restarts or closes the upload. */
  predicate Resets(r: Request, id: UploadId) {
    r.id == id && ((r.Start? && r.size.Some?) || r.Finish? || r.Cancel?)
  }

  /**
   The messages an open session stands for: the start that opened it, and for chunk number `k` the
   message that carried index `k` and exactly those bytes, one after the other, with no restart since.
   */
  ghost predicate Witnessed(rs: seq<Request>, id: UploadId, s: Session, start: nat, at: seq<nat>) {
    && start < |rs| && rs[start] == Start(id, s.name, Some(s.size))
    && |at| == |s.chunks|
    && (forall k :: 0 <= k < |at| ==> start < at[k] < |rs| && rs[at[k]] == Chunk(id, Some(k), Some(s.chunks[k])))
    && (forall j, k :: 0 <= j < k < |at| ==> at[j] < at[k])
    && (forall i :: start < i < |rs| ==> !Resets(rs[i], id))
  }

  lemma {:induction false} SessionHasMessages(rs: seq<Request>, id: UploadId) returns (start: nat, at: seq<nat>)
    requires OpenSession(rs, id).Some?
    ensures Witnessed(rs, id, OpenSession(rs, id).value, start, at)
  {
    hide Witnessed, SessionStep;
    var n := |rs| - 1;
    var front, r := rs[..n], rs[n];
    assert rs == front + [r];
    var before, after := OpenSession(front, id), OpenSession(rs, id);
    SessionStepCases(before, r, id);
    if r.id == id && r.Start? && r.size.Some? {
      start, at := n, [];
      WitnessedStart(front, r, id, after.value);
    } else {
      start, at := SessionHasMessages(front, id);
      if after == before {
        WitnessedLater(front, r, id, after.value, start, at);
      } else {
        WitnessedMore(front, r, id, before.value, start, at);
        at := at + [n];
      }
    }
  }

  /** What a step of an open session can be. */
  lemma SessionStepCases(before: Option<Session>, r: Request, id: UploadId)
    requires SessionStep(before, r, id).Some?
    ensures var after := SessionStep(before, r, id);
            if r.id == id && r.Start? && r.size.Some? then after == Some(Session(r.name, r.size.value, []))
            else before.Some? && !Resets(r, id)
                 && (after == before
                     || (r.Chunk? && r.data.Some? && r == Chunk(id, Some(|before.value.chunks|), r.data)
                         && after == Some(before.value.(chunks := before.value.chunks + [r.data.value]))))
  {}

  lemma WitnessedStart(rs: seq<Request>, r: Request, id: UploadId, s: Session)
    requires r.Start? && r.id == id && r.size.Some? && s == Session(r.name, r.size.value, [])
    ensures Witnessed(rs + [r], id, s, |rs|, [])
  {}

  lemma WitnessedLater(rs: seq<Request>, r: Request, id: UploadId, s: Session, start: nat, at: seq<nat>)
    requires Witnessed(rs, id, s, start, at) && !Resets(r, id)
    ensures Witnessed(rs + [r], id, s, start, at)
  {}

  lemma WitnessedMore(rs: seq<Request>, r: Request, id: UploadId, s: Session, start: nat, at: seq<nat>)
    requires Witnessed(rs, id, s, start, at) && r.Chunk? && r.data.Some? && r == Chunk(id, Some(|s.chunks|), r.data)
    ensures Witnessed(rs + [r], id, s.(chunks := s.chunks + [r.data.value]), start, at + [|rs|])
  {}

  /**
   In any interleaving of uploads a finish is accepted exactly if its upload is open and the chunks it
   accepted, numbered 0, 1, 2 and so on, add up to the declared size; what is handed over is those chunks in order.
   */
  lemma FinishIff(rs: seq<Request>, i: nat)
    requires i < |rs| && rs[i].Finish?
    ensures var s := OpenSession(rs[..i], rs[i].id);
            && (Answer(rs, i).Finished? <==> s.Some? && |Concat(s.value.chunks)| == s.value.size)
            && (Answer(rs, i).Finished? ==>
                  && Answer(rs, i).upload.data == Concat(s.value.chunks)
                  && exists start, at :: Witnessed(rs[..i], rs[i].id, s.value, start, at))
  {
    HostHoldsSessions(rs[..i], rs[i].id);
    if Answer(rs, i).Finished? {
      var start, at := SessionHasMessages(rs[..i], rs[i].id);
    }
  }

  /**
   What the host answers besides. A chunk is received exactly if its upload is open and it carries the next number
   and readable data, and the answer counts all bytes so far; a start is received with none if it has a size.
   */
  lemma AnswerIff(rs: seq<Request>, i: nat)
    requires i < |rs|
    ensures var s := OpenSession(rs[..i], rs[i].id);
            match rs[i]
            case Start(_, _, size) => Answer(rs, i) == if size.Some? then Received(0) else Rejected
            case Chunk(_, index, data) =>
              Answer(rs, i) ==
                if s.Some? && index == Some(|s.value.chunks|) && data.Some?
                then Received(|Concat(s.value.chunks + [data.value])|) else Rejected
            case Finish(id) =>
              Answer(rs, i) ==
                if s.Some? && |Concat(s.value.chunks)| == s.value.size
                then Finished(Upload(s.value.name, s.value.size, |s.value.chunks|, Concat(s.value.chunks)))
                else Rejected
            case Cancel(_) => Answer(rs, i) == Cancelled
  {
    hide Concat, OpenSession, After;
    HostHoldsSessions(rs[..i], rs[i].id);
    var s := OpenSession(rs[..i], rs[i].id);
    if rs[i].Chunk? && rs[i].data.Some? && s.Some? {
      ConcatMore(s.value.chunks, rs[i].data.value);
    }
  }

  // ---------------------------------------------------------------------------------------------
  // Uploads do not disturb each other

  function Of(rs: seq<Request>, id: UploadId): seq<Request> {
    if rs == [] then []
    else Of(rs[..|rs| - 1], id) + (if rs[|rs| - 1].id == id then [rs[|rs| - 1]] else [])
  }

  /** An upload's state depends on its own messages only. */
  lemma {:induction false} UploadsAreIndependent(rs: seq<Request>, id: UploadId)
    ensures OpenSession(rs, id) == OpenSession(Of(rs, id), id)
  {
    if rs != [] {
      hide Of, OpenSession, SessionStep;
      var front, r := rs[..|rs| - 1], rs[|rs| - 1];
      assert rs == front + [r];
      UploadsAreIndependent(front, id);
      OfMore(front, r, id);
      OpenMore(front, r, id);
      if r.id == id {
        OpenMore(Of(front, id), r, id);
      } else {
        OthersPass(OpenSession(front, id), r, id);
      }
    }
  }

  lemma OfMore(rs: seq<Request>, r: Request, id: UploadId)
    ensures Of(rs + [r], id) == if r.id == id then Of(rs, id) + [r] else Of(rs, id)
  {
    assert (rs + [r])[..|rs|] == rs;
  }

  lemma OpenMore(rs: seq<Request>, r: Request, id: UploadId)
    ensures OpenSession(rs + [r], id) == SessionStep(OpenSession(rs, id), r, id)
  {
    hide SessionStep;
    assert (rs + [r])[..|rs|] == rs;
  }

  lemma OthersPass(s: Option<Session>, r: Request, id: UploadId)
    requires r.id != id
    ensures SessionStep(s, r, id) == s
  {}

  // ---------------------------------------------------------------------------------------------
  // Downloads

  datatype Frame =
    | Refused
    | Begin(size: nat)
    | Part(index: nat, text: string, received: nat)
    | Done(size: nat, index: nat, received: nat)

  function Least(a: int, b: int): int { if a <= b then a else b }

  function PartCount(n: nat): nat { (n + CHUNK_SIZE - 1) / CHUNK_SIZE }

  function PartEnd(n: nat, k: nat): nat { Least((k + 1) * CHUNK_SIZE, n) }

  lemma PartsCover(n: nat, k: nat)
    ensures k < PartCount(n) <==> k * CHUNK_SIZE < n
    ensures PartCount(n) * CHUNK_SIZE >= n
  {}

  /** Bytes `k * CHUNK_SIZE` up to the next multiple or the end. */
  function Slice(data: seq<Byte>, k: nat): seq<Byte>
    requires k * CHUNK_SIZE < |data|
  {
    data[k * CHUNK_SIZE..PartEnd(|data|, k)]
  }

  /** The frame of part `k`: its number, its bytes as text, and how many bytes have been sent with it. */
  function PartFrame(data: seq<Byte>, k: nat): Frame
    requires k * CHUNK_SIZE < |data|
  {
    Part(k, UrlEncode(Slice(data, k)), PartEnd(|data|, k))
  }

  ghost predicate ArePartsOf(data: seq<Byte>, n: nat, parts: seq<Frame>) {
    |parts| == n && forall k :: 0 <= k < n ==> k * CHUNK_SIZE < |data| && parts[k] == PartFrame(data, k)
  }

  method FileDownload(data: seq<Byte>, maxBytes: int) returns (frames: seq<Frame>, ghost parts: seq<Frame>)
    ensures maxBytes <= 0 || |data| > maxBytes ==> frames == [Refused]
    ensures maxBytes > 0 && |data| <= maxBytes ==>
              && ArePartsOf(data, PartCount(|data|), parts)
              && frames == [Begin(|data|)] + parts + [Done(|data|, PartCount(|data|), |data|)]
  {
    hide UrlEncode, ArePartsOf, PartFrame, PartCount, PartEnd;
    parts := [];
    NoParts(data);
    if maxBytes <= 0 || |data| > maxBytes {
      return [Refused], [];
    }
    frames := [Begin(|data|)];
    var received := 0;
    var index := 0;
    var offset := 0;
    while offset < |data|
      invariant offset == index * CHUNK_SIZE && index <= PartCount(|data|)
      invariant received == Least(offset, |data|)
      invariant ArePartsOf(data, index, parts) && frames == [Begin(|data|)] + parts
      decreases |data| - offset
    {
      var end := if offset + CHUNK_SIZE <= |data| then offset + CHUNK_SIZE else |data|;
      var chunk := data[offset..end];
      received := received + |chunk|;
      var part := Part(index, UrlEncode(chunk), received);
      NextPart(data, index, parts);
      PartIs(data, index, end, part);
      assert [Begin(|data|)] + parts + [part] == [Begin(|data|)] + (parts + [part]);
      parts := parts + [part];
      frames := frames + [part];
      index := index + 1;
      offset := offset + CHUNK_SIZE;
    }
    PartsCover(|data|, index);
    CountIs(|data|);
    frames := frames + [Done(|data|, (|data| + CHUNK_SIZE - 1) / CHUNK_SIZE, |data|)];
  }

  lemma NoParts(data: seq<Byte>)
    ensures ArePartsOf(data, 0, [])
  {}

  lemma CountIs(n: nat)
    ensures PartCount(n) == (n + CHUNK_SIZE - 1) / CHUNK_SIZE
  {}

  lemma NextPart(data: seq<Byte>, k: nat, parts: seq<Frame>)
    requires k * CHUNK_SIZE < |data| && ArePartsOf(data, k, parts)
    ensures ArePartsOf(data, k + 1, parts + [PartFrame(data, k)])
    ensures k + 1 <= PartCount(|data|)
  {
    hide PartFrame, PartCount;
    PartsCover(|data|, k);
  }

  lemma PartIs(data: seq<Byte>, k: nat, end: nat, part: Frame)
    requires k * CHUNK_SIZE < |data| && end == Least((k + 1) * CHUNK_SIZE, |data|)
    requires part == Part(k, UrlEncode(data[k * CHUNK_SIZE..end]), end)
    ensures part == PartFrame(data, k)
  {
    hide UrlEncode;
  }

  function Slices(data: seq<Byte>, n: nat): (r: seq<seq<Byte>>)
    requires n <= PartCount(|data|)
    ensures |r| == n
  {
    if n == 0 then []
    else
      PartsCover(|data|, n - 1);
      Slices(data, n - 1) + [Slice(data, n - 1)]
  }

  lemma SliceJoins(data: seq<Byte>, k: nat)
    requires k * CHUNK_SIZE < |data|
    ensures data[..k * CHUNK_SIZE] + Slice(data, k) == data[..PartEnd(|data|, k)]
  {}

  /** The first `n` parts are the file up to the end of the last of them. */
  lemma {:induction false} SlicesJoin(data: seq<Byte>, n: nat)
    requires n <= PartCount(|data|)
    ensures Concat(Slices(data, n)) == data[..Least(n * CHUNK_SIZE, |data|)]
  {
    hide Slice;
    if n > 0 {
      PartsCover(|data|, n - 1);
      SlicesJoin(data, n - 1);
      SliceJoins(data, n - 1);
      var parts := Slices(data, n);
      assert parts[..n - 1] == Slices(data, n - 1);
    }
  }

  /** The running total in a frame counts the bytes of all parts up to and including this one. */
  lemma TotalsAreRight(data: seq<Byte>, k: nat)
    requires k < PartCount(|data|)
    ensures k * CHUNK_SIZE < |data| && PartFrame(data, k).received == |Concat(Slices(data, k + 1))|
  {
    hide UrlEncode, Slice, Slices, Concat;
    PartsCover(|data|, k);
    SlicesJoin(data, k + 1);
  }

  // ---------------------------------------------------------------------------------------------
  // A download fed to the upload handler

  /** The upload message that carries on a downloaded part: its text is decoded. */
  function Forward(id: UploadId, f: Frame): Request
    requires f.Part?
  {
    Chunk(id, Some(f.index), UrlDecode(f.text))
  }

  function Replay(id: UploadId, name: string, size: nat, parts: seq<Frame>): seq<Request>
    requires forall f <- parts :: f.Part?
  {
    if parts == [] then [Start(id, name, Some(size))]
    else Replay(id, name, size, parts[..|parts| - 1]) + [Forward(id, parts[|parts| - 1])]
  }

  lemma {:induction false} ReplayCollects(id: UploadId, name: string, data: seq<Byte>, parts: seq<Frame>)
    requires |parts| <= PartCount(|data|) && ArePartsOf(data, |parts|, parts)
    ensures forall f <- parts :: f.Part?
    ensures OpenSession(Replay(id, name, |data|, parts), id) == Some(Session(name, |data|, Slices(data, |parts|)))
    decreases |parts|
  {
    hide UrlEncode, UrlDecode, Slice;
    var n := |parts|;
    var rs := Replay(id, name, |data|, parts);
    if n == 0 {
      assert rs[..0] == [];
    } else {
      var front := parts[..n - 1];
      ReplayCollects(id, name, data, front);
      assert rs[..|rs| - 1] == Replay(id, name, |data|, front);
      assert parts[n - 1] == PartFrame(data, n - 1);
      UrlDecodeEncode(Slice(data, n - 1));
    }
  }

  /**
   Whatever other uploads run in between, an upload fed with the parts of a download finishes and
   stores exactly the downloaded file.
   */
  lemma DownloadThenUpload(id: UploadId, name: string, data: seq<Byte>, parts: seq<Frame>, rs: seq<Request>, i: nat)
    requires ArePartsOf(data, PartCount(|data|), parts) && forall f <- parts :: f.Part?
    requires i < |rs| && rs[i] == Finish(id)
    requires Of(rs[..i], id) == Replay(id, name, |data|, parts)
    ensures Answer(rs, i) == Finished(Upload(name, |data|, PartCount(|data|), data))
  {
    hide UrlEncode, UrlDecode, Replay, Slices, Concat, Of, OpenSession, PartCount;
    var n := PartCount(|data|);
    ReplayCollects(id, name, data, parts);
    UploadsAreIndependent(rs[..i], id);
    HostHoldsSessions(rs[..i], id);
    SlicesJoin(data, n);
    PartsCover(|data|, n);
    assert data[..|data|] == data;
  }
}
