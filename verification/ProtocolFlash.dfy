/** What the board has stored once an upload's stream stage is over. */
module ProtocolFlash {
  import opened Bytes
  import opened Options
  import opened Frame
  import opened Request
  import opened Firmware
  import opened Upload
  import opened Coverage
  import opened Protocol
  import opened ProtocolSafety

  /** The announcement erases, a chunk is stored at its index, nothing else matters. */
  function Store(flash: map<nat, Bytes>, e: Exec): map<nat, Bytes>
  {
    var p := e.payload;
    if e.subtype == 8 && p != [] && p[0] == STAGE_ANNOUNCE then map[]
    else if e.subtype == 8 && |p| >= 3 && p[0] == STAGE_STREAM then flash[De16(p[1], p[2]) := p[3..]]
    else flash
  }

  /** The stored chunks after the executions of `log`, in order. */
  function Flash(log: seq<Exec>): map<nat, Bytes>
  {
    if log == [] then map[] else Store(Flash(log[..|log| - 1]), log[|log| - 1])
  }

  /** The size that the last announcement run so far has told the board. */
  function Announced(log: seq<Exec>): Option<u32>
  {
    if log == [] then None
    else
      var e := log[|log| - 1];
      if e.subtype == 8 && |e.payload| >= 5 && e.payload[0] == STAGE_ANNOUNCE then Some(De32(e.payload[1..5]))
      else Announced(log[..|log| - 1])
  }

  predicate Harmless(r: Req) { r.subtype != 8 || r.payload == [] || r.payload[0] >= STAGE_VERIFY }

  function Chunks(image: Bytes): nat { (ContentLen(image) + CHUNK_SIZE - 1) / CHUNK_SIZE }

  /** A request with this payload stores chunk `j`. */
  predicate Writes(image: Bytes, payload: Bytes, j: nat)
  {
    j < TotalChunks(image) && payload == ChunkPayload(image, j)
  }

  ghost predicate ChunkRequest(image: Bytes, r: Req)
  {
    r.subtype == 8 && exists j: nat :: Writes(image, r.payload, j)
  }

  /** Request `k` is the announcement, and after it only chunks are stored, in whatever order and number. */
  ghost predicate UploadIssued(issued: seq<Req>, k: nat, image: Bytes)
  {
    && InSize(image) && k < |issued| && issued[k] == Req(8, AnnouncePayload(|image|))
    && forall i :: k < i < |issued| ==> Harmless(issued[i]) || ChunkRequest(image, issued[i])
  }

  /** Chunk `j` has run within the first `m` executions, after request `k`. */
  ghost predicate Ran(c: Config, log: seq<Exec>, m: nat, k: nat, image: Bytes, j: nat)
  {
    exists a :: 0 <= a < m && a < |log| && RunsChunk(c, log[a], k, image, j)
  }

  ghost predicate RunsChunk(c: Config, e: Exec, k: nat, image: Bytes, j: nat)
  {
    IndexOf(c, e.number) > k && e.subtype == 8 && Writes(image, e.payload, j)
  }

  /** Request `i` has run within the first `m` executions. */
  ghost predicate Seen(c: Config, log: seq<Exec>, m: nat, i: nat)
  {
    exists a :: 0 <= a < m && a < |log| && IndexOf(c, log[a].number) == i
  }

  lemma StoreAt(flash: map<nat, Bytes>, e: Exec, idx: u16, data: Bytes)
    requires e.subtype == 8 && e.payload == [STAGE_STREAM] + Be16(idx) + data
    ensures Store(flash, e) == flash[idx := data]
  {
    De16Be16(idx);
    hide Be16, De16;
    var p := e.payload;
    assert p[0] == STAGE_STREAM && p[1] == Be16(idx)[0] && p[2] == Be16(idx)[1];
    assert p[3..] == data;
  }

  lemma StoreChunk(image: Bytes, flash: map<nat, Bytes>, e: Exec, j: nat)
    requires InSize(image) && e.subtype == 8 && Writes(image, e.payload, j)
    ensures Store(flash, e) == flash[j := Chunk(image, j)]
  {
    ChunkCount(image);
    hide TotalChunks, Chunk, Be16, Store;
    assert j % 0x1_0000 == j;
    StoreAt(flash, e, j, Chunk(image, j));
  }

  lemma StoreAnnounce(image: Bytes, flash: map<nat, Bytes>, e: Exec)
    requires InSize(image) && e.subtype == 8 && e.payload == AnnouncePayload(|image|)
    ensures Store(flash, e) == map[]
  {
    hide Be32;
  }

  /** What is harmless stores no chunk. */
  lemma HarmlessWrites(image: Bytes, r: Req, j: nat)
    requires Harmless(r)
    ensures !(r.subtype == 8 && Writes(image, r.payload, j))
  {
    hide Chunk, TotalChunks, Be16;
  }

  lemma WritesOne(image: Bytes, payload: Bytes, i: nat, j: nat)
    requires InSize(image) && Writes(image, payload, i) && Writes(image, payload, j)
    ensures i == j
  {
    hide ChunkPayload, TotalChunks;
    DistinctChunks(image, i, j);
  }

  /** Once the announcement has run, the flash holds exactly the chunks that have run since. */
  ghost predicate FlashIs(c: Config, log: seq<Exec>, m: nat, k: nat, image: Bytes)
    requires m <= |log|
  {
    var flash := Flash(log[..m]);
    && (forall j: nat :: j in flash <==> Ran(c, log, m, k, image, j))
    && HoldsChunks(flash, image)
  }

  /** Whatever is stored is the chunk of that index. */
  predicate HoldsChunks(flash: map<nat, Bytes>, image: Bytes)
  {
    forall j: nat :: j in flash ==> j < TotalChunks(image) && flash[j] == Chunk(image, j)
  }

  lemma SeenMore(c: Config, log: seq<Exec>, m: nat, i: nat)
    requires m < |log|
    ensures Seen(c, log, m + 1, i) <==> Seen(c, log, m, i) || IndexOf(c, log[m].number) == i
  {
    hide IndexOf;
    if Seen(c, log, m, i) {
      var a :| 0 <= a < m && IndexOf(c, log[a].number) == i;
    }
  }

  lemma RanMore(c: Config, log: seq<Exec>, m: nat, k: nat, image: Bytes, j: nat)
    requires m < |log|
    ensures Ran(c, log, m + 1, k, image, j) <==> Ran(c, log, m, k, image, j) || RunsChunk(c, log[m], k, image, j)
  {
    hide RunsChunk;
  }

  /** No later request has run yet. */
  lemma NoneLater(c: Config, issued: seq<Req>, log: seq<Exec>, m: nat, k: nat, image: Bytes, j: nat)
    requires LogOk(c, issued, log) && 0 < m <= |log| && IndexOf(c, log[m - 1].number) == k
    ensures !Ran(c, log, m, k, image, j)
  {
    hide IndexOf, AtMostOnce, Logged, Writes;
    forall a | 0 <= a < m
      ensures !RunsChunk(c, log[a], k, image, j)
    {
    }
  }

  /** The announcement starts over. */
  lemma AnnounceStep(c: Config, issued: seq<Req>, log: seq<Exec>, m: nat, k: nat, image: Bytes)
    requires LogOk(c, issued, log) && UploadIssued(issued, k, image) && 0 < m <= |log|
    requires IndexOf(c, log[m - 1].number) == k
    ensures FlashIs(c, log, m, k, image)
  {
    hide IndexOf, Store, Chunk, Flash, AtMostOnce, Ran, ChunkRequest, AnnouncePayload;
    assert Logged(c, issued, log[m - 1]);
    FlashLast(log, m);
    StoreAnnounce(image, Flash(log[..m - 1]), log[m - 1]);
    forall j: nat
      ensures !Ran(c, log, m, k, image, j)
    {
      NoneLater(c, issued, log, m, k, image, j);
    }
  }

  /** A chunk or a harmless request after the announcement. */
  lemma LaterStep(c: Config, issued: seq<Req>, log: seq<Exec>, m: nat, k: nat, image: Bytes)
    requires LogOk(c, issued, log) && UploadIssued(issued, k, image) && 0 < m <= |log|
    requires IndexOf(c, log[m - 1].number) > k && FlashIs(c, log, m - 1, k, image)
    ensures FlashIs(c, log, m, k, image)
  {
    hide IndexOf, Store, Chunk, Flash, AtMostOnce, Ran, Writes, AnnouncePayload, Harmless;
    var e := log[m - 1];
    var i := IndexOf(c, e.number);
    assert Logged(c, issued, e);
    FlashLast(log, m);
    forall j: nat
      ensures Ran(c, log, m, k, image, j) <==> Ran(c, log, m - 1, k, image, j) || RunsChunk(c, e, k, image, j)
    {
      RanMore(c, log, m - 1, k, image, j);
    }
    if Harmless(issued[i]) {
      StoreHarmless(Flash(log[..m - 1]), e, issued[i]);
      forall j: nat
        ensures !RunsChunk(c, e, k, image, j)
      {
        HarmlessWrites(image, issued[i], j);
      }
    } else {
      var x: nat :| Writes(image, e.payload, x);
      StoreChunk(image, Flash(log[..m - 1]), e, x);
      WritesChunk(image, e.payload, x);
      forall j: nat
        ensures RunsChunk(c, e, k, image, j) <==> j == x
      {
        if RunsChunk(c, e, k, image, j) {
          WritesOne(image, e.payload, j, x);
        }
      }
    }
  }

  lemma WritesChunk(image: Bytes, payload: Bytes, j: nat)
    requires Writes(image, payload, j)
    ensures j < TotalChunks(image)
  {
  }

  lemma {:induction false} FlashPrefix(c: Config, issued: seq<Req>, log: seq<Exec>, m: nat, k: nat, image: Bytes)
    requires LogOk(c, issued, log) && UploadIssued(issued, k, image) && m <= |log|
    ensures Seen(c, log, m, k) ==> FlashIs(c, log, m, k, image)
  {
    hide IndexOf, Logged, AtMostOnce, FlashIs, UploadIssued;
    if m > 0 && Seen(c, log, m, k) {
      SeenMore(c, log, m - 1, k);
      if IndexOf(c, log[m - 1].number) == k {
        AnnounceStep(c, issued, log, m, k, image);
      } else {
        FlashPrefix(c, issued, log, m - 1, k, image);
        OrderedAfter(c, issued, log, m, k);
        LaterStep(c, issued, log, m, k, image);
      }
    }
  }

  lemma OrderedAfter(c: Config, issued: seq<Req>, log: seq<Exec>, m: nat, k: nat)
    requires LogOk(c, issued, log) && 0 < m <= |log| && Seen(c, log, m, k)
    ensures IndexOf(c, log[m - 1].number) >= k
  {
    hide IndexOf, Logged, AtMostOnce;
  }

  lemma StoreHarmless(flash: map<nat, Bytes>, e: Exec, r: Req)
    requires Harmless(r) && e.subtype == r.subtype && e.payload == r.payload
    ensures Store(flash, e) == flash
  {
  }

  lemma FlashLast(log: seq<Exec>, m: nat)
    requires 0 < m <= |log|
    ensures Flash(log[..m]) == Store(Flash(log[..m - 1]), log[m - 1])
  {
    hide Store;
    assert log[..m][..m - 1] == log[..m - 1];
  }

  /** The announcement tells the size, and nothing after it does. */
  lemma {:induction false} AnnouncedPrefix(c: Config, issued: seq<Req>, log: seq<Exec>, m: nat, k: nat, image: Bytes)
    requires LogOk(c, issued, log) && UploadIssued(issued, k, image) && m <= |log|
    ensures Seen(c, log, m, k) ==> Announced(log[..m]) == Some(|image|)
  {
    hide IndexOf, AtMostOnce, ChunkRequest, AnnouncePayload, De32;
    if m > 0 && Seen(c, log, m, k) {
      var e := log[m - 1];
      assert Logged(c, issued, e);
      assert log[..m][..m - 1] == log[..m - 1] && log[..m][m - 1] == e;
      SeenMore(c, log, m - 1, k);
      if IndexOf(c, e.number) == k {
        SizeTold(|image|);
      } else {
        AnnouncedPrefix(c, issued, log, m - 1, k, image);
        OrderedAfter(c, issued, log, m, k);
        NoSizeTold(image, issued[IndexOf(c, e.number)]);
      }
    }
  }

  lemma SizeTold(size: u32)
    ensures |AnnouncePayload(size)| == 5 && AnnouncePayload(size)[0] == STAGE_ANNOUNCE
    ensures De32(AnnouncePayload(size)[1..5]) == size
  {
    De32Be32(size);
    hide Be32, De32;
    assert AnnouncePayload(size)[1..5] == Be32(size);
  }

  lemma NoSizeTold(image: Bytes, r: Req)
    requires Harmless(r) || ChunkRequest(image, r)
    ensures !(r.subtype == 8 && r.payload != [] && r.payload[0] == STAGE_ANNOUNCE)
  {
    hide Chunk, TotalChunks, Be16;
  }

  /** The chunks put together. */
  function Joined(flash: map<nat, Bytes>, n: nat): Bytes
    requires forall j: nat :: j < n ==> j in flash
  {
    if n == 0 then [] else Joined(flash, n - 1) + flash[n - 1]
  }

  lemma JoinSlices(s: Bytes, a: nat, b: nat, d: nat)
    requires a <= b <= d <= |s|
    ensures s[a..b] + s[b..d] == s[a..d]
  {
  }

  /** Where the first `n` chunks end. */
  function EndOf(image: Bytes, n: nat): nat { Min(CONTENT_START + n * CHUNK_SIZE, |image|) }

  lemma ChunkSlice(image: Bytes, j: nat)
    requires j < TotalChunks(image)
    ensures CONTENT_START <= EndOf(image, j) <= EndOf(image, j + 1) <= |image|
    ensures Chunk(image, j) == image[EndOf(image, j)..EndOf(image, j + 1)]
  {
    ChunkStart(image, j);
    hide TotalChunks;
  }

  lemma {:induction false} JoinedIsImage(image: Bytes, flash: map<nat, Bytes>, n: nat)
    requires |image| >= CONTENT_START && n <= TotalChunks(image)
    requires forall j: nat :: j < n ==> j in flash && flash[j] == Chunk(image, j)
    ensures CONTENT_START <= EndOf(image, n) <= |image|
    ensures Joined(flash, n) == image[CONTENT_START..EndOf(image, n)]
  {
    if n > 0 {
      hide TotalChunks, Chunk, EndOf;
      JoinedIsImage(image, flash, n - 1);
      ChunkSlice(image, n - 1);
      JoinSlices(image, CONTENT_START, EndOf(image, n - 1), EndOf(image, n));
    }
  }

  lemma OkHasRun(c: Config, s: State, last: u32, i: nat) returns (a: nat)
    requires Inv(c, s, last) && |s.issued| < 0x1_0000_0000 && i < |s.results| && s.results[i].Ok?
    ensures i < |s.issued| && a < |s.log| && IndexOf(c, s.log[a].number) == i
    ensures s.log[a].subtype == s.issued[i].subtype && s.log[a].payload == s.issued[i].payload
  {
    hide IndexOf, NumberOf, AtMostOnce, UpOk, LogOk, DownOk, NotStale;
    a :| 0 <= a < |s.log| && s.log[a]
      == Exec(NumberOf(c, i), s.issued[i].subtype, s.issued[i].payload, s.results[i].payload);
    NumbersInvert(c, i, 0);
  }

  /** A request after `k` carries chunk `j`. */
  ghost predicate Requested(issued: seq<Req>, k: nat, image: Bytes, j: nat)
  {
    exists i :: k < i < |issued| && issued[i].subtype == 8 && Writes(image, issued[i].payload, j)
  }

  /** When the announcement and all chunk requests are answered Ok, the chunks stored are exactly those requested,
      each at its index, whatever was lost or repeated. */
  lemma FlashHolds(c: Config, s: State, last: u32, k: nat, image: Bytes)
    requires Inv(c, s, last) && |s.issued| < 0x1_0000_0000 && UploadIssued(s.issued, k, image)
    requires k < |s.results| && s.results[k].Ok?
    requires forall i :: k < i < |s.issued| && ChunkRequest(image, s.issued[i]) ==> i < |s.results| && s.results[i].Ok?
    ensures forall j: nat :: j in Flash(s.log) <==> Requested(s.issued, k, image, j)
    ensures HoldsChunks(Flash(s.log), image) && Announced(s.log) == Some(|image|)
  {
    hide IndexOf, Flash, Writes, Inv, HoldsChunks, UploadIssued, Announced;
    var b := OkHasRun(c, s, last, k);
    assert Seen(c, s.log, |s.log|, k);
    LogIs(c, s, last);
    FlashPrefix(c, s.issued, s.log, |s.log|, k, image);
    AnnouncedPrefix(c, s.issued, s.log, |s.log|, k, image);
    assert s.log[..|s.log|] == s.log;
    forall j: nat
      ensures Ran(c, s.log, |s.log|, k, image, j) <==> Requested(s.issued, k, image, j)
    {
      RanIsRequested(c, s, last, k, image, j);
    }
  }

  lemma LogIs(c: Config, s: State, last: u32)
    requires Inv(c, s, last)
    ensures LogOk(c, s.issued, s.log)
  {
  }

  lemma RanIsRequested(c: Config, s: State, last: u32, k: nat, image: Bytes, j: nat)
    requires Inv(c, s, last) && |s.issued| < 0x1_0000_0000
    requires forall i :: k < i < |s.issued| && ChunkRequest(image, s.issued[i]) ==> i < |s.results| && s.results[i].Ok?
    ensures Ran(c, s.log, |s.log|, k, image, j) <==> Requested(s.issued, k, image, j)
  {
    hide IndexOf, Writes, Inv, AtMostOnce;
    LogIs(c, s, last);
    if Ran(c, s.log, |s.log|, k, image, j) {
      var a :| 0 <= a < |s.log| && RunsChunk(c, s.log[a], k, image, j);
      assert Logged(c, s.issued, s.log[a]);
    }
    if Requested(s.issued, k, image, j) {
      var i :| k < i < |s.issued| && s.issued[i].subtype == 8 && Writes(image, s.issued[i].payload, j);
      assert ChunkRequest(image, s.issued[i]);
      var a := OkHasRun(c, s, last, i);
      assert RunsChunk(c, s.log[a], k, image, j);
    }
  }

  lemma ChunksCount(image: Bytes)
    requires InSize(image)
    ensures Chunks(image) == TotalChunks(image) == (|image| - 256 + 1023) / 1024
    ensures Chunks(image) <= 8192
    ensures CONTENT_START + Chunks(image) * CHUNK_SIZE >= |image| > CONTENT_START
  {
    ChunkCount(image);
  }

  // ── the upload and the protocol together ─────────────────────────────

  /** Requests `k`, `k + 1`, ... of the run are those of an upload fed with the run's own answers. */
  ghost predicate Follows(s: State, k: nat, image: Bytes)
  {
    && InSize(image) && k <= |s.results| <= |s.issued|
    && var answers := s.results[k..];
       && AllAsked(TotalChunks(image), answers)
       && (forall i :: k <= i < |s.issued| ==> IsRequest(image, answers, i - k, s.issued[i]))
  }

  /** `r` is request number `i` of the upload. */
  ghost predicate IsRequest(image: Bytes, answers: seq<Answer>, i: nat, r: Req)
  {
    i <= |answers| && !PhaseAfter(TotalChunks(image), answers[..i]).Finished? && r == Req(8, PayloadAt(image, answers, i))
  }

  /** The first `n` answers end the stream stage. */
  ghost predicate StreamOver(total: u32, answers: seq<Answer>, n: nat)
  {
    n <= |answers| && PhaseAfter(total, answers[..n]).Verifying?
  }

  lemma PhaseLater(total: u32, p: Phase, a: Answer)
    ensures p.Announcing? || !Advance(total, p, a).0.Announcing?
    ensures !p.Finished? ==> !Advance(total, p, a).0.Announcing?
    ensures p.Verifying? || p.Completing? || p.Finished? ==>
      var q := Advance(total, p, a).0;
      q.Completing? || q.Finished?
    ensures !Advance(total, p, a).0.Finished? ==> a.Ok?
  {
    hide ReplyWord, NextChunk, Percent, Reports, Refused;
  }

  /** After the stream stage nothing is streamed, and only request 0 announces. */
  lemma {:induction false} StagesApart(total: u32, answers: seq<Answer>, n: nat, i: nat)
    requires AllAsked(total, answers) && i <= |answers|
    ensures i > 0 ==> !PhaseAfter(total, answers[..i]).Announcing?
    ensures StreamOver(total, answers, n) && n <= i ==>
      var p := PhaseAfter(total, answers[..i]);
      p.Verifying? || p.Completing? || p.Finished?
  {
    hide PhaseAfter, Advance;
    if i > 0 {
      StagesApart(total, answers, n, i - 1);
      PhaseNext(total, answers, i - 1);
      PhaseLater(total, PhaseAfter(total, answers[..i - 1]), answers[i - 1]);
    }
  }

  /** The answers up to the end of the stream are Ok. */
  lemma StreamIsOk(total: u32, answers: seq<Answer>, n: nat, i: nat)
    requires AllAsked(total, answers) && StreamOver(total, answers, n) && i < n
    ensures answers[i].Ok?
  {
    hide PhaseAfter, Advance;
    PhaseNext(total, answers, i);
    PhaseLater(total, PhaseAfter(total, answers[..i]), answers[i]);
  }

  /** Request `i` of an upload, as a request of the run. */
  lemma RequestKind(image: Bytes, answers: seq<Answer>, n: nat, i: nat, r: Req)
    requires InSize(image) && AllAsked(TotalChunks(image), answers) && IsRequest(image, answers, i, r)
    ensures i == 0 ==> r == Req(8, AnnouncePayload(|image|))
    ensures
      var p := PhaseAfter(TotalChunks(image), answers[..i]);
      && (i > 0 && !p.Streaming? ==> Harmless(r))
      && (p.Streaming? ==> Writes(image, r.payload, p.idx))
  {
    hide PhaseAfter, TotalChunks, Chunk, AnnouncePayload;
    var total := TotalChunks(image);
    PhaseInRange(total, answers[..i]);
    StagesApart(total, answers, n, i);
    NothingYet(total, answers);
    hide ChunkPayload;
  }

  lemma NothingYet(total: u32, answers: seq<Answer>)
    ensures PhaseAfter(total, answers[..0]) == Announcing
  {
  }

  /** The requests of the run are the announcement and the chunks that the upload asks for. */
  lemma FollowsIssued(s: State, k: nat, image: Bytes, n: nat)
    requires Follows(s, k, image) && StreamOver(TotalChunks(image), s.results[k..], n)
    ensures UploadIssued(s.issued, k, image) && k < |s.results| && s.results[k].Ok?
    ensures forall i :: k < i < |s.issued| && ChunkRequest(image, s.issued[i]) ==> i < |s.results| && s.results[i].Ok?
  {
    hide PhaseAfter, TotalChunks, AllAsked, IsRequest, Writes, Harmless, AnnouncePayload, StreamOver;
    var total, answers := TotalChunks(image), s.results[k..];
    OverIsLate(total, answers, n);
    forall i | k <= i < |s.issued|
      ensures i == k ==> s.issued[i] == Req(8, AnnouncePayload(|image|))
      ensures i > k ==> Harmless(s.issued[i]) || ChunkRequest(image, s.issued[i])
      ensures i > k && ChunkRequest(image, s.issued[i]) ==> i < k + n && s.results[i].Ok?
    {
      assert IsRequest(image, answers, i - k, s.issued[i]);
      OneRequest(image, answers, n, i - k, s.issued[i]);
      if i < k + n {
        StreamIsOk(total, answers, n, i - k);
      }
    }
    StreamIsOk(total, answers, n, 0);
  }

  lemma OverIsLate(total: u32, answers: seq<Answer>, n: nat)
    requires StreamOver(total, answers, n)
    ensures 0 < n <= |answers|
  {
    NothingYet(total, answers);
    hide PhaseAfter;
  }

  lemma OneRequest(image: Bytes, answers: seq<Answer>, n: nat, i: nat, r: Req)
    requires InSize(image) && AllAsked(TotalChunks(image), answers) && IsRequest(image, answers, i, r)
    requires StreamOver(TotalChunks(image), answers, n)
    ensures i == 0 ==> r == Req(8, AnnouncePayload(|image|))
    ensures i > 0 ==> Harmless(r) || ChunkRequest(image, r)
    ensures i > 0 && ChunkRequest(image, r) ==> i < n
    ensures forall j: nat :: i > 0 ==>
      (r.subtype == 8 && Writes(image, r.payload, j) <==>
        PhaseAfter(TotalChunks(image), answers[..i]).Streaming? && PhaseAfter(TotalChunks(image), answers[..i]).idx == j)
  {
    hide PhaseAfter, TotalChunks, Writes, Harmless, AnnouncePayload, PayloadAt;
    RequestKind(image, answers, n, i, r);
    StagesApart(TotalChunks(image), answers, n, i);
    var p := PhaseAfter(TotalChunks(image), answers[..i]);
    forall j: nat | i > 0
      ensures r.subtype == 8 && Writes(image, r.payload, j) <==> p.Streaming? && p.idx == j
    {
      if p.Streaming? {
        if Writes(image, r.payload, j) {
          WritesOne(image, r.payload, j, p.idx);
        }
      } else {
        HarmlessWrites(image, r, j);
      }
    }
  }

  /** The run requests a chunk exactly if the upload asks for it. */
  lemma RequestedIsAsked(s: State, k: nat, image: Bytes, n: nat, j: nat)
    requires Follows(s, k, image) && StreamOver(TotalChunks(image), s.results[k..], n)
    ensures Requested(s.issued, k, image, j) <==> Asked(TotalChunks(image), s.results[k..][..n], 0, j)
  {
    hide PhaseAfter, TotalChunks, AllAsked, IsRequest, Writes, StreamOver;
    var total, answers := TotalChunks(image), s.results[k..];
    OverIsLate(total, answers, n);
    NothingYet(total, answers);
    if Requested(s.issued, k, image, j) {
      var i :| k < i < |s.issued| && s.issued[i].subtype == 8 && Writes(image, s.issued[i].payload, j);
      assert IsRequest(image, answers, i - k, s.issued[i]);
      OneRequest(image, answers, n, i - k, s.issued[i]);
      assert answers[..n][..i - k] == answers[..i - k];
      assert Carries(total, answers[..n], i - k, j);
    }
    if Asked(total, answers[..n], 0, j) {
      var i :| 0 <= i < n && Carries(total, answers[..n], i, j);
      assert answers[..n][..i] == answers[..i];
      assert IsRequest(image, answers, i, s.issued[k + i]);
      OneRequest(image, answers, n, i, s.issued[k + i]);
    }
  }

  /** The flash holds the image without its header, chunk by chunk and nothing else. */
  ghost predicate Whole(flash: map<nat, Bytes>, image: Bytes)
  {
    && InSize(image) && (forall j: nat :: j in flash <==> j < Chunks(image))
    && Joined(flash, Chunks(image)) == image[CONTENT_START..]
  }

  lemma WholeIff(flash: map<nat, Bytes>, image: Bytes)
    requires InSize(image) && HoldsChunks(flash, image)
    ensures Whole(flash, image) <==> forall j: nat :: j < TotalChunks(image) ==> j in flash
  {
    ChunksCount(image);
    hide Joined, Chunk, TotalChunks, Chunks;
    if forall j: nat :: j < TotalChunks(image) ==> j in flash {
      JoinedIsImage(image, flash, Chunks(image));
    }
  }

  /** How many bytes the first `n` chunks have that are there. */
  function StoredBytes(flash: map<nat, Bytes>, n: nat): nat
  {
    if n == 0 then 0 else StoredBytes(flash, n - 1) + if n - 1 in flash then |flash[n - 1]| else 0
  }

  lemma {:induction false} StoredUpTo(flash: map<nat, Bytes>, image: Bytes, n: nat)
    requires |image| >= CONTENT_START && n <= TotalChunks(image) && HoldsChunks(flash, image)
    ensures CONTENT_START + StoredBytes(flash, n) <= EndOf(image, n)
    ensures CONTENT_START + StoredBytes(flash, n) == EndOf(image, n) <==> forall j: nat :: j < n ==> j in flash
  {
    hide TotalChunks, Chunk, EndOf;
    if n > 0 {
      StoredUpTo(flash, image, n - 1);
      ChunkSlice(image, n - 1);
      assert |Chunk(image, n - 1)| == EndOf(image, n) - EndOf(image, n - 1) > 0;
    } else {
      EndOfNone(image);
    }
  }

  lemma EndOfNone(image: Bytes)
    requires |image| >= CONTENT_START
    ensures EndOf(image, 0) == CONTENT_START
  {
  }

  /** The size announced tells whether what is stored is whole: it is the header and all bytes stored. */
  lemma SizeTells(flash: map<nat, Bytes>, image: Bytes)
    requires InSize(image) && HoldsChunks(flash, image)
    ensures Whole(flash, image) <==> CONTENT_START + StoredBytes(flash, Chunks(image)) == |image|
  {
    ChunksCount(image);
    hide Whole, TotalChunks, Chunk, HoldsChunks, StoredBytes, Chunks;
    WholeIff(flash, image);
    StoredUpTo(flash, image, Chunks(image));
  }

  /** An upload run over the protocol, once its stream stage is over: however frames are lost, repeated and echoed, the
      board has been told the image's size and has stored exactly the chunks asked for, and they are the whole image if
      and only if each chunk skipped since the last restart had been asked for before; the size told shows which. */
  lemma UploadStoresImage(c: Config, last: u32, cached: Msg, steps: seq<Step>, k: nat, image: Bytes, n: nat)
    requires
      var s := Run(c, Start(last, cached), steps);
      && RunUnmistaken(c, Start(last, cached), steps, last) && |s.issued| < 0x1_0000_0000
      && Follows(s, k, image) && StreamOver(TotalChunks(image), s.results[k..], n)
    ensures
      var s := Run(c, Start(last, cached), steps);
      var flash, answers := Flash(s.log), s.results[k..][..n];
      && (forall j: nat :: j in flash <==> Asked(TotalChunks(image), answers, 0, j)) && HoldsChunks(flash, image)
      && (Whole(flash, image) <==> SkipsMended(TotalChunks(image), answers))
      && Announced(s.log).Some?
      && (Whole(flash, image) <==> CONTENT_START + StoredBytes(flash, Chunks(image)) == Announced(s.log).value)
  {
    hide Announced, StoredBytes, Chunks, Run, Inv, Follows, Flash, Whole, HoldsChunks, PhaseAfter, StreamOver, UploadIssued, Start, Asked, TotalChunks, ChunkRequest,
      Requested, SkipsMended;
    var s := Run(c, Start(last, cached), steps);
    StartInv(c, last, cached);
    RunKeeps(c, Start(last, cached), steps, last);
    FollowsSize(s, k, image);
    FollowsIssued(s, k, image, n);
    FlashHolds(c, s, last, k, image);
    OverIsUnderway(TotalChunks(image), s.results[k..], n);
    var flash, answers := Flash(s.log), s.results[k..][..n];
    forall j: nat
      ensures Requested(s.issued, k, image, j) <==> Asked(TotalChunks(image), answers, 0, j)
    {
      RequestedIsAsked(s, k, image, n, j);
    }
    WholeIff(flash, image);
    SizeTells(flash, image);
    ChunkCount(image);
    EveryChunkAsked(TotalChunks(image), answers);
  }

  lemma OverIsUnderway(total: u32, answers: seq<Answer>, n: nat)
    requires StreamOver(total, answers, n)
    ensures n <= |answers| && Underway(PhaseAfter(total, answers[..n])) && Reached(PhaseAfter(total, answers[..n]), total) == total
  {
    hide PhaseAfter;
  }

  lemma FollowsSize(s: State, k: nat, image: Bytes)
    requires Follows(s, k, image)
    ensures k <= |s.results| && InSize(image)
  {
  }

  /** Without a restart it is the whole image if and only if no answer runs ahead. */
  lemma StoredIff(c: Config, last: u32, cached: Msg, steps: seq<Step>, k: nat, image: Bytes, n: nat)
    requires
      var s := Run(c, Start(last, cached), steps);
      && RunUnmistaken(c, Start(last, cached), steps, last) && |s.issued| < 0x1_0000_0000
      && Follows(s, k, image) && StreamOver(TotalChunks(image), s.results[k..], n)
      && NeverRestarts(TotalChunks(image), s.results[k..][..n])
    ensures
      var s := Run(c, Start(last, cached), steps);
      Whole(Flash(s.log), image) <==> forall i :: 0 <= i < n ==> !RunsAhead(TotalChunks(image), s.results[k..][..n], i)
  {
    hide Run, Follows, Flash, Whole, HoldsChunks, PhaseAfter, StreamOver, Start, Asked, TotalChunks, SkipsMended, NeverRestarts,
      RunsAhead, AllBehindAsked, RunUnmistaken;
    var s := Run(c, Start(last, cached), steps);
    UploadStoresImage(c, last, cached, steps, k, image, n);
    FollowsSize(s, k, image);
    ChunkCount(image);
    OverIsUnderway(TotalChunks(image), s.results[k..], n);
    EveryChunkAsked(TotalChunks(image), s.results[k..][..n]);
    EveryChunkIff(TotalChunks(image), s.results[k..][..n]);
  }
}
