/**
 The extraction worker's two passes over an open file: the hash loop and the request body stream.
 The file may change between reads, reads may come back short or fail, and the signal may abort.
 */
module FileTransfer {
  import opened Common

  type Byte = x: int | 0 <= x < 256
  type Digest = seq<Byte>

  const FILE_READ_CHUNK_BYTES := 256 * 1024

  /** What surrounds the worker, tick by tick; each read happens at one tick. */
  datatype World = World(
    content: nat -> seq<Byte>, // the bytes in the file
    reach: nat -> nat,         // the most a read returns
    broken: nat -> bool,       // a read throws
    aborted: nat -> bool       // the signal has aborted
  )

  datatype Failure = LeaseAborted | InputChanged | ReadFailed

  function Min(a: nat, b: nat): nat { if a < b then a else b }

  /** `handle.read`: None when it throws. */
  function Read(w: World, tick: nat, position: nat, requested: nat): Option<seq<Byte>> {
    if w.broken(tick) then None
    else
      var file := w.content(tick);
      var from := Min(position, |file|);
      Some(file[from..from + Min(Min(requested, w.reach(tick)), |file| - from)])
  }

  function Requested(position: nat, size: nat): nat
    requires position <= size
  {
    if size - position > FILE_READ_CHUNK_BYTES then FILE_READ_CHUNK_BYTES else size - position
  }

  /** One read of the loop succeeds in full. */
  predicate Whole(w: World, tick: nat, position: nat, size: nat)
    requires position <= size
  {
    var read := Read(w, tick, position, Requested(position, size));
    !w.aborted(tick) && read.Some? && |read.value| == Requested(position, size)
  }

  lemma WholeExactly(w: World, tick: nat, position: nat, size: nat)
    requires position < size
    ensures Whole(w, tick, position, size) <==>
            && !w.aborted(tick) && !w.broken(tick)
            && w.reach(tick) >= Requested(position, size)
            && |w.content(tick)| >= position + Requested(position, size)
    ensures Whole(w, tick, position, size) ==>
              Read(w, tick, position, Requested(position, size)) ==
              Some(w.content(tick)[position..position + Requested(position, size)])
  {
  }

  /** What a whole read at the k-th chunk adds. */
  lemma SeenExtends(w: World, start: nat, size: nat, k: nat, before: seq<Byte>, piece: seq<Byte>)
    requires k * FILE_READ_CHUNK_BYTES == |before| < size && SeenAt(w, start, before)
    requires Whole(w, start + k, |before|, size)
    requires Read(w, start + k, |before|, Requested(|before|, size)) == Some(piece)
    ensures SeenAt(w, start, before + piece)
  {
    WholeExactly(w, start + k, |before|, size);
    var after := before + piece;
    forall i | 0 <= i < |after|
      ensures |w.content(start + i / FILE_READ_CHUNK_BYTES)| > i
              && after[i] == w.content(start + i / FILE_READ_CHUNK_BYTES)[i]
    {
      if i >= |before| {
        assert i / FILE_READ_CHUNK_BYTES == k;
        assert piece[i - |before|] == w.content(start + k)[i];
      }
    }
  }

  // ---- The hash loop. ----

  function ReadCount(size: nat): nat {
    (size + FILE_READ_CHUNK_BYTES - 1) / FILE_READ_CHUNK_BYTES
  }

  lemma ChunkArithmetic(size: nat, k: nat)
    requires k * FILE_READ_CHUNK_BYTES < size
    ensures k < ReadCount(size)
    ensures k * FILE_READ_CHUNK_BYTES / FILE_READ_CHUNK_BYTES == k
    ensures 1 <= Requested(k * FILE_READ_CHUNK_BYTES, size) <= FILE_READ_CHUNK_BYTES
    ensures var next := k * FILE_READ_CHUNK_BYTES + Requested(k * FILE_READ_CHUNK_BYTES, size);
            next == (k + 1) * FILE_READ_CHUNK_BYTES < size || (next == size && k + 1 == ReadCount(size))
  {
  }

  /** The bytes are the file's, each taken from the content at the tick of the read that covers it. */
  ghost predicate SeenAt(w: World, start: nat, bytes: seq<Byte>) {
    forall i :: 0 <= i < |bytes| ==>
      |w.content(start + i / FILE_READ_CHUNK_BYTES)| > i
      && bytes[i] == w.content(start + i / FILE_READ_CHUNK_BYTES)[i]
  }

  ghost predicate FirstReadsWhole(w: World, start: nat, size: nat, n: nat)
    requires n <= ReadCount(size)
  {
    forall k :: 0 <= k < n ==> Whole(w, start + k, k * FILE_READ_CHUNK_BYTES, size)
  }

  ghost predicate EveryReadWhole(w: World, start: nat, size: nat) {
    FirstReadsWhole(w, start, size, ReadCount(size))
  }

  /** Why the read at this tick ends the loop. */
  function FailureAt(w: World, tick: nat): Failure {
    if w.aborted(tick) then LeaseAborted else if w.broken(tick) then ReadFailed else InputChanged
  }

  ghost predicate FailsFirstAt(w: World, start: nat, size: nat, k: nat) {
    && k < ReadCount(size) && FirstReadsWhole(w, start, size, k)
    && !Whole(w, start + k, k * FILE_READ_CHUNK_BYTES, size)
  }

  ghost predicate FailsWith(w: World, start: nat, size: nat, f: Failure) {
    exists k :: FailsFirstAt(w, start, size, k) && f == FailureAt(w, start + k)
  }

  lemma OneReadMore(w: World, start: nat, size: nat, k: nat)
    requires k < ReadCount(size) && FirstReadsWhole(w, start, size, k)
    ensures Whole(w, start + k, k * FILE_READ_CHUNK_BYTES, size) ==> FirstReadsWhole(w, start, size, k + 1)
    ensures !Whole(w, start + k, k * FILE_READ_CHUNK_BYTES, size) ==>
              !EveryReadWhole(w, start, size) && FailsWith(w, start, size, FailureAt(w, start + k))
  {
    if !Whole(w, start + k, k * FILE_READ_CHUNK_BYTES, size) {
      assert FailsFirstAt(w, start, size, k);
    }
  }

  /**
   The digest is that of exactly the first `size` bytes, in order, as they were when read, in reads
   of at most 256 KiB; it is reached exactly when every read is whole.
   */
  method HashOpenFile(w: World, size: nat, start: nat, sha: seq<Byte> -> Digest)
    returns (r: Result<Digest, Failure>, ghost hashed: seq<Byte>, ghost lengths: seq<nat>)
    ensures r.Ok? <==> EveryReadWhole(w, start, size)
    ensures r.Ok? ==> |hashed| == size && SeenAt(w, start, hashed) && r.value == sha(hashed)
    ensures r.Err? ==> FailsWith(w, start, size, r.error)
    ensures |lengths| <= ReadCount(size)
    ensures forall k :: 0 <= k < |lengths| ==> 1 <= lengths[k] <= FILE_READ_CHUNK_BYTES
  {
    var position := 0;
    ghost var k := 0;
    var contents: seq<Byte> := [];
    lengths := [];
    while position < size
      invariant position == |contents| <= size && |lengths| == k
      invariant if position < size then position == k * FILE_READ_CHUNK_BYTES else k == ReadCount(size)
      invariant forall j :: 0 <= j < k ==> 1 <= lengths[j] <= FILE_READ_CHUNK_BYTES
      invariant k <= ReadCount(size) && FirstReadsWhole(w, start, size, k)
      invariant SeenAt(w, start, contents)
    {
      ChunkArithmetic(size, k);
      var tick := start + position / FILE_READ_CHUNK_BYTES;
      var requested := Requested(position, size);
      var read := Read(w, tick, position, requested);
      OneReadMore(w, start, size, k);
      if w.aborted(tick) || read.None? || |read.value| != requested {
        return Err(FailureAt(w, tick)), contents, lengths;
      }
      lengths := lengths + [requested];
      SeenExtends(w, start, size, k, contents, read.value);
      contents := contents + read.value;
      position := position + |read.value|;
      k := k + 1;
    }
    hashed := contents;
    r := Ok(sha(contents));
  }

  // ---- The request body. ----

  datatype Status = Open | Closed | Errored

  datatype Stream = Stream(position: nat, status: Status, sent: seq<Byte>)

  const UNREAD := Stream(0, Open, [])

  function PullStep(w: World, size: nat, tick: nat, s: Stream): Stream {
    if w.aborted(tick) then s.(status := Errored)
    else if s.position >= size then s.(status := Closed)
    else
      var read := Read(w, tick, s.position, Requested(s.position, size));
      if read.None? || |read.value| != Requested(s.position, size) then s.(status := Errored)
      else s.(position := s.position + |read.value|, sent := s.sent + read.value)
  }

  class BodyStream {
    const size: nat
    var position: nat
    var status: Status
    var sent: seq<Byte>

    constructor (size: nat)
      ensures View() == UNREAD && this.size == size
    {
      this.size := size;
      position, status, sent := 0, Open, [];
    }

    ghost function View(): Stream
      reads this
    {
      Stream(position, status, sent)
    }

    /** The runtime pulls only while the stream is open. */
    method Pull(w: World, tick: nat)
      requires status == Open
      modifies this
      ensures View() == PullStep(w, size, tick, old(View()))
    {
      if w.aborted(tick) {
        status := Errored;
        return;
      }
      if position >= size {
        status := Closed;
        return;
      }
      var requested := Requested(position, size);
      var read := Read(w, tick, position, requested);
      if read.None? || |read.value| != requested {
        status := Errored;
        return;
      }
      position := position + |read.value|;
      sent := sent + read.value;
    }
  }

  class BodyFactory {
    const size: nat
    var bodyCreated: bool

    constructor (size: nat)
      ensures !bodyCreated && this.size == size
    {
      this.size := size;
      bodyCreated := false;
    }

    /** Only the first request for a body gets one, from the start of the file. */
    method Create() returns (r: Result<BodyStream, Failure>)
      modifies this
      ensures bodyCreated
      ensures r.Ok? <==> !old(bodyCreated)
      ensures r.Ok? ==> fresh(r.value) && r.value.View() == UNREAD && r.value.size == size
      ensures r.Err? ==> r.error == InputChanged
    {
      if bodyCreated {
        return Err(InputChanged);
      }
      bodyCreated := true;
      var body := new BodyStream(size);
      return Ok(body);
    }
  }

  /** The checks before the request: the size, then the digest; only then is there a body to ask for. */
  method CheckInput(w: World, sizeBytes: nat, inputSizeBytes: nat, start: nat, sha: seq<Byte> -> Digest,
                    inputSha256: Digest)
    returns (r: Result<BodyFactory, Failure>, ghost hashed: seq<Byte>)
    ensures r.Ok? <==>
            sizeBytes == inputSizeBytes && EveryReadWhole(w, start, inputSizeBytes) && sha(hashed) == inputSha256
    ensures r.Ok? ==> |hashed| == inputSizeBytes && SeenAt(w, start, hashed)
    ensures r.Ok? ==> fresh(r.value) && !r.value.bodyCreated && r.value.size == inputSizeBytes
    ensures r.Err? && sizeBytes == inputSizeBytes && !EveryReadWhole(w, start, inputSizeBytes) ==>
              FailsWith(w, start, inputSizeBytes, r.error)
    ensures r.Err? && (sizeBytes != inputSizeBytes || EveryReadWhole(w, start, inputSizeBytes)) ==>
            r.error == InputChanged
  {
    hashed := [];
    if sizeBytes != inputSizeBytes {
      return Err(InputChanged), hashed;
    }
    var actualSha256;
    ghost var lengths;
    actualSha256, hashed, lengths := HashOpenFile(w, inputSizeBytes, start, sha);
    if actualSha256.Err? {
      return Err(actualSha256.error), hashed;
    }
    if actualSha256.value != inputSha256 {
      return Err(InputChanged), hashed;
    }
    var factory := new BodyFactory(inputSizeBytes);
    return Ok(factory), hashed;
  }

  /** The stream after pulls at the given ticks; one that is closed or errored is not pulled again. */
  function Pulled(w: World, size: nat, ticks: seq<nat>): Stream {
    if ticks == [] then UNREAD
    else
      var before := Pulled(w, size, ticks[..|ticks| - 1]);
      if before.status == Open then PullStep(w, size, ticks[|ticks| - 1], before) else before
  }

  /** Each byte sent is the file's, from the content at the tick of the pull that covers it. */
  ghost predicate SentAt(w: World, ticks: seq<nat>, bytes: seq<Byte>) {
    forall i :: 0 <= i < |bytes| ==>
      && i / FILE_READ_CHUNK_BYTES < |ticks|
      && |w.content(ticks[i / FILE_READ_CHUNK_BYTES])| > i
      && bytes[i] == w.content(ticks[i / FILE_READ_CHUNK_BYTES])[i]
  }

  ghost predicate WholeUpTo(w: World, size: nat, ticks: seq<nat>, n: nat) {
    n <= |ticks| && n <= ReadCount(size)
    && forall k :: 0 <= k < n ==> Whole(w, ticks[k], k * FILE_READ_CHUNK_BYTES, size)
  }

  /** The pull after n whole reads goes wrong. */
  predicate Breaks(w: World, size: nat, tick: nat, n: nat)
    requires n <= ReadCount(size)
  {
    if n == ReadCount(size) then w.aborted(tick) else !Whole(w, tick, n * FILE_READ_CHUNK_BYTES, size)
  }

  ghost predicate BreaksAt(w: World, size: nat, ticks: seq<nat>, n: nat) {
    n < |ticks| && WholeUpTo(w, size, ticks, n) && Breaks(w, size, ticks[n], n)
  }

  /** What the state of a stream says about its pulls. */
  ghost predicate Accounts(w: World, size: nat, ticks: seq<nat>, s: Stream) {
    && s.position == |s.sent| && SentAt(w, ticks, s.sent)
    && (s.status == Open ==>
          WholeUpTo(w, size, ticks, |ticks|) && s.position == Min(|ticks| * FILE_READ_CHUNK_BYTES, size))
    && (s.status == Closed ==>
          && |ticks| > ReadCount(size) && WholeUpTo(w, size, ticks, ReadCount(size))
          && !w.aborted(ticks[ReadCount(size)]) && s.position == size)
    && (s.status == Errored ==> exists n :: BreaksAt(w, size, ticks, n))
  }

  lemma SentExtends(w: World, size: nat, ticks: seq<nat>, tick: nat, sent: seq<Byte>, piece: seq<Byte>)
    requires |ticks| * FILE_READ_CHUNK_BYTES == |sent| < size && SentAt(w, ticks, sent)
    requires Whole(w, tick, |sent|, size)
    requires Read(w, tick, |sent|, Requested(|sent|, size)) == Some(piece)
    ensures SentAt(w, ticks + [tick], sent + piece)
  {
    WholeExactly(w, tick, |sent|, size);
    var after, longer := sent + piece, ticks + [tick];
    forall i | 0 <= i < |after|
      ensures i / FILE_READ_CHUNK_BYTES < |longer|
      ensures |w.content(longer[i / FILE_READ_CHUNK_BYTES])| > i
      ensures after[i] == w.content(longer[i / FILE_READ_CHUNK_BYTES])[i]
    {
      if i >= |sent| {
        assert i / FILE_READ_CHUNK_BYTES == |ticks|;
        assert piece[i - |sent|] == w.content(tick)[i];
      }
    }
  }

  lemma LongerTicks(w: World, size: nat, ticks: seq<nat>, tick: nat, s: Stream)
    requires Accounts(w, size, ticks, s)
    ensures SentAt(w, ticks + [tick], s.sent)
    ensures forall n :: WholeUpTo(w, size, ticks, n) ==> WholeUpTo(w, size, ticks + [tick], n)
    ensures forall n :: BreaksAt(w, size, ticks, n) ==> BreaksAt(w, size, ticks + [tick], n)
  {
    var longer := ticks + [tick];
    assert forall k :: 0 <= k < |ticks| ==> longer[k] == ticks[k];
    forall i | 0 <= i < |s.sent|
      ensures s.sent[i] == w.content(longer[i / FILE_READ_CHUNK_BYTES])[i]
    {
      assert i / FILE_READ_CHUNK_BYTES < |ticks|;
    }
  }

  lemma PullAccounts(w: World, size: nat, ticks: seq<nat>, tick: nat, s: Stream)
    requires s.status == Open && Accounts(w, size, ticks, s)
    ensures Accounts(w, size, ticks + [tick], PullStep(w, size, tick, s))
  {
    var longer, after := ticks + [tick], PullStep(w, size, tick, s);
    LongerTicks(w, size, ticks, tick, s);
    assert longer[|ticks|] == tick;
    var n := |ticks|;
    if after.status == Errored {
      assert BreaksAt(w, size, longer, n);
    } else if after.status == Closed {
      assert n == ReadCount(size);
    } else {
      assert s.position == n * FILE_READ_CHUNK_BYTES;
      SentExtends(w, size, ticks, tick, s.sent, Read(w, tick, s.position, Requested(s.position, size)).value);
    }
  }

  lemma {:induction false} PulledAccounts(w: World, size: nat, ticks: seq<nat>)
    ensures Accounts(w, size, ticks, Pulled(w, size, ticks))
  {
    if ticks != [] {
      var front, tick := ticks[..|ticks| - 1], ticks[|ticks| - 1];
      assert ticks == front + [tick];
      PulledAccounts(w, size, front);
      var before := Pulled(w, size, front);
      if before.status == Open {
        PullAccounts(w, size, front, tick, before);
      } else {
        LongerTicks(w, size, front, tick, before);
      }
    }
  }

  /**
   The body ends normally exactly when each read is whole and the pull after the last one is not
   aborted; it never stays open for more pulls than that, and then it has sent `size` bytes.
   */
  lemma BodyEndsExactly(w: World, size: nat, ticks: seq<nat>)
    ensures Pulled(w, size, ticks).status == Closed <==>
            && |ticks| > ReadCount(size) && WholeUpTo(w, size, ticks, ReadCount(size))
            && !w.aborted(ticks[ReadCount(size)])
    ensures |ticks| > ReadCount(size) ==> Pulled(w, size, ticks).status != Open
    ensures Pulled(w, size, ticks).status == Closed ==> |Pulled(w, size, ticks).sent| == size
    ensures SentAt(w, ticks, Pulled(w, size, ticks).sent)
  {
    PulledAccounts(w, size, ticks);
    var s := Pulled(w, size, ticks);
    if s.status == Errored {
      var n: nat :| BreaksAt(w, size, ticks, n);
      assert n < ReadCount(size) ==> !Whole(w, ticks[n], n * FILE_READ_CHUNK_BYTES, size);
    }
  }

  // ---- The bytes sent are the bytes hashed. ----

  ghost predicate SameBytes(hashing: World, start: nat, sending: World, ticks: seq<nat>, size: nat) {
    forall i :: 0 <= i < size ==>
      && i / FILE_READ_CHUNK_BYTES < |ticks|
      && |hashing.content(start + i / FILE_READ_CHUNK_BYTES)| > i
      && |sending.content(ticks[i / FILE_READ_CHUNK_BYTES])| > i
      && hashing.content(start + i / FILE_READ_CHUNK_BYTES)[i] == sending.content(ticks[i / FILE_READ_CHUNK_BYTES])[i]
  }

  /** The digest was checked on one reading and another was sent: they agree exactly when no byte changed. */
  lemma SentIsHashedExactly(hashing: World, start: nat, sending: World, ticks: seq<nat>, size: nat,
                            hashed: seq<Byte>)
    requires |hashed| == size && SeenAt(hashing, start, hashed)
    requires Pulled(sending, size, ticks).status == Closed
    ensures Pulled(sending, size, ticks).sent == hashed <==> SameBytes(hashing, start, sending, ticks, size)
  {
    BodyEndsExactly(sending, size, ticks);
    var sent := Pulled(sending, size, ticks).sent;
    if sent == hashed {
      forall i | 0 <= i < size
        ensures hashing.content(start + i / FILE_READ_CHUNK_BYTES)[i]
                == sending.content(ticks[i / FILE_READ_CHUNK_BYTES])[i]
      {
        assert sent[i] == hashed[i];
      }
    }
  }

  /** On an unchanged file the body that is sent has the digest that was checked. */
  lemma UnchangedFileSendsCheckedBytes(file: seq<Byte>, hashing: World, start: nat, sending: World, ticks: seq<nat>,
                                       size: nat, hashed: seq<Byte>, sha: seq<Byte> -> Digest, expected: Digest)
    requires |hashed| == size && SeenAt(hashing, start, hashed) && sha(hashed) == expected
    requires Pulled(sending, size, ticks).status == Closed
    requires forall t :: hashing.content(t) == file
    requires forall t :: sending.content(t) == file
    ensures |file| >= size && Pulled(sending, size, ticks).sent == hashed == file[..size]
    ensures sha(Pulled(sending, size, ticks).sent) == expected
  {
    BodyEndsExactly(sending, size, ticks);
    var sent := Pulled(sending, size, ticks).sent;
    SeenOfOneContent(file, hashing, start, hashed);
    forall i | 0 <= i < size ensures i < |file| && sent[i] == file[i] {
      assert sending.content(ticks[i / FILE_READ_CHUNK_BYTES]) == file;
    }
  }

  lemma SeenOfOneContent(file: seq<Byte>, w: World, start: nat, bytes: seq<Byte>)
    requires SeenAt(w, start, bytes) && forall t :: w.content(t) == file
    ensures |bytes| <= |file| && bytes == file[..|bytes|]
  {
    if bytes != [] {
      assert w.content(start + (|bytes| - 1) / FILE_READ_CHUNK_BYTES) == file;
    }
    forall i | 0 <= i < |bytes| ensures bytes[i] == file[i] {
      assert w.content(start + i / FILE_READ_CHUNK_BYTES) == file;
    }
  }

  // ---- The constants and the errors, told from outside. ----

  /** A file is read at once exactly if it has at most 256 KiB; each further read takes as much again. */
  lemma ReadsAre256KiB(size: nat, n: nat)
    ensures ReadCount(size) <= n <==> size <= 262144 * n
  {
  }

  /** The failure of a hash or a transfer says what happened at the first read that was not whole. */
  lemma FailureIsTold(w: World, start: nat, size: nat, f: Failure) returns (k: nat)
    requires FailsWith(w, start, size, f)
    ensures k < ReadCount(size) && FirstReadsWhole(w, start, size, k)
    ensures !Whole(w, start + k, k * FILE_READ_CHUNK_BYTES, size)
    ensures f == LeaseAborted <==> w.aborted(start + k)
    ensures f == ReadFailed <==> !w.aborted(start + k) && w.broken(start + k)
    ensures f == InputChanged ==>
              Read(w, start + k, k * FILE_READ_CHUNK_BYTES, 262144).Some?
              && |Read(w, start + k, k * FILE_READ_CHUNK_BYTES, 262144).value| < size - k * FILE_READ_CHUNK_BYTES
  {
    k :| FailsFirstAt(w, start, size, k) && f == FailureAt(w, start + k);
  }
}
