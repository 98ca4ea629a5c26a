/** The resumable installer download of threadforge_worker/updater.py. Files are
    values passed in and out; the server, the connection and the disk are inputs. */
module Download {
  import opened Basics
  import opened Options

  type Bytes = seq<bv8>

  const MAX_BUNDLE_BYTES := 128 * 1024 * 1024
  const DOWNLOAD_RANGE_BYTES := 2 * 1024 * 1024
  const DOWNLOAD_READ_BYTES := 64 * 1024
  const DOWNLOAD_RETRY_LIMIT := 5

  /** One read of the response. Of `Data` the disk keeps the first `kept` bytes, all
      of them unless a write or the final flush fails; `ok` is false when the write
      fails or the connection is found stalled. An exception says whether its
      message is one of the permanent ones. */
  datatype Read = Data(bytes: Bytes, kept: nat, ok: bool) | Ended | Broken(permanent: bool)

  datatype ContentRange = Absent | ContentRange(start: int, end: int, size: int)

  datatype Attempt =
    | HttpError(code: int)
    | Refused(permanent: bool)
    | Response(status: int, range: ContentRange, chunks: nat -> Read)

  datatype Failure = Unauthorized | NotResumable | BadRange | ExceededSize | Permanent | RetriesExhausted | WrongSize
    | WrongChecksum | NothingToUnlink

  datatype Result = Returned | Raised(failure: Failure)

  datatype Disk = Disk(installer: Option<Bytes>, partial: Option<Bytes>)

  function Contents(file: Option<Bytes>): Bytes {
    if file.Some? then file.value else []
  }

  /** `_file_matches` */
  predicate Matches(sha: Bytes -> string, file: Option<Bytes>, size: nat, digest: string) {
    file.Some? && |file.value| == size && sha(file.value) == digest
  }

  /** `_validate_range_response` */
  function Rejection(a: Attempt, start: int, end: int, size: int): Option<Failure>
    requires a.Response?
  {
    if a.status == 200 && start == 0 && end == size - 1 then None
    else if a.status != 206 then Some(NotResumable)
    else if a.range != ContentRange(start, end, size) then Some(BadRange)
    else None
  }

  /** Every byte of the read reaches the file. */
  predicate Atomic(r: Read) {
    r.Data? ==> r.kept >= |r.bytes|
  }

  ghost predicate AtomicWrites(a: Attempt) {
    a.Response? ==> forall j: nat :: Atomic(a.chunks(j))
  }

  /** How one ranged request ends. */
  datatype Transfer = Complete | Retry | Fatal(failure: Failure)

  /** What was received is what the file held at first plus every byte read; the
      file is that with some bytes missing, and equals it when none is. */
  predicate Tracks(file: Bytes, received: Bytes, lost: nat) {
    |file| + lost == |received| && (lost == 0 ==> file == received)
  }

  lemma {:induction false} TracksItself(file: Bytes)
    ensures Tracks(file, file, 0)
  {
  }

  lemma {:induction false} TracksMore(file: Bytes, received: Bytes, lost: nat, chunk: Bytes, kept: nat)
    requires Tracks(file, received, lost) && kept <= |chunk|
    ensures Tracks(file + chunk[..kept], received + chunk, lost + (|chunk| - kept))
  {
    if lost + (|chunk| - kept) == 0 { assert chunk[..kept] == chunk; }
  }

  /** What one ranged request leaves: all bytes received so far, the partial file,
      and how many received bytes the file is missing. */
  datatype Progress = Progress(outcome: Transfer, received: Bytes, file: Option<Bytes>, lost: nat)

  // ----- the specification -----

  function Clipped(bytes: Bytes, received: nat, end: nat): (chunk: Bytes)
    requires received <= end
    ensures |chunk| <= end - received + 1
  {
    var wanted := Min(DOWNLOAD_READ_BYTES, end - received + 1);
    if |bytes| > wanted then bytes[..wanted] else bytes
  }

  /** One read of a range; `Complete` means that the loop goes on. */
  function OneRead(r: Read, size: nat, end: nat, received: Bytes, written: Bytes, lost: nat): (p: Progress)
    requires |received| <= end < size && Tracks(written, received, lost)
    ensures received <= p.received && |p.received| <= end + 1
    ensures p.outcome == Complete ==> |p.received| > |received|
    ensures p.outcome.Fatal? ==> p.outcome.failure == ExceededSize || p.outcome.failure == Permanent
    ensures p.outcome != Fatal(ExceededSize) ==>
            p.file.Some? && written <= p.file.value && Tracks(p.file.value, p.received, p.lost)
    ensures p.outcome == Fatal(ExceededSize) ==> p.file == None && size > MAX_BUNDLE_BYTES
    ensures lost <= p.lost && (Atomic(r) ==> p.lost == lost)
  {
    match r
    case Ended => Progress(Retry, received, Some(written), lost)
    case Broken(permanent) => Progress(if permanent then Fatal(Permanent) else Retry, received, Some(written), lost)
    case Data(bytes, kept, ok) =>
      var chunk := Clipped(bytes, |received|, end);
      var total := |received| + |chunk|;
      if |chunk| == 0 then Progress(Retry, received, Some(written), lost)
      else if total > MAX_BUNDLE_BYTES || total > size then Progress(Fatal(ExceededSize), received + chunk, None, lost)
      else
        var stored := Min(kept, |chunk|);
        TracksMore(written, received, lost, chunk, stored);
        Progress(if ok then Complete else Retry, received + chunk, Some(written + chunk[..stored]),
            lost + (|chunk| - stored))
  }

  /** The reads of one range from the j-th on. */
  function RangeRead(chunks: nat -> Read, size: nat, end: nat, j: nat, received: Bytes, written: Bytes,
      lost: nat): (p: Progress)
    requires |received| <= end + 1 <= size && Tracks(written, received, lost)
    ensures received <= p.received && |p.received| <= end + 1
    ensures p.outcome == Complete ==> |p.received| == end + 1
    ensures p.outcome.Fatal? ==> p.outcome.failure == ExceededSize || p.outcome.failure == Permanent
    ensures p.outcome != Fatal(ExceededSize) ==>
            p.file.Some? && written <= p.file.value && Tracks(p.file.value, p.received, p.lost)
    ensures p.outcome == Fatal(ExceededSize) ==> p.file == None && size > MAX_BUNDLE_BYTES
    ensures lost <= p.lost
    decreases end + 1 - |received|
  {
    if |received| > end then Progress(Complete, received, Some(written), lost)
    else
      var p := OneRead(chunks(j), size, end, received, written, lost);
      if p.outcome == Complete then RangeRead(chunks, size, end, j + 1, p.received, p.file.value, p.lost) else p
  }

  function RangeEnd(received: nat, size: nat): int {
    Min(size - 1, received + DOWNLOAD_RANGE_BYTES - 1)
  }

  /** One ranged request. */
  function RangeTried(a: Attempt, size: nat, received: Bytes, partial: Option<Bytes>, lost: nat): (p: Progress)
    requires |received| < size && Tracks(Contents(partial), received, lost)
    ensures received <= p.received && |p.received| <= size
    ensures p.outcome == Complete ==> |p.received| == RangeEnd(|received|, size) + 1
    ensures p.outcome != Fatal(ExceededSize) ==>
              Contents(partial) <= Contents(p.file) && Tracks(Contents(p.file), p.received, p.lost) &&
              (partial.Some? || |p.received| > |received| ==> p.file.Some?)
    ensures p.outcome == Fatal(ExceededSize) ==> p.file == None && size > MAX_BUNDLE_BYTES
    ensures p.outcome.Fatal? ==> p.outcome.failure in {Unauthorized, NotResumable, BadRange, Permanent, ExceededSize}
    ensures lost <= p.lost
  {
    match a
    case HttpError(code) =>
      Progress(if code == 401 || code == 403 then Fatal(Unauthorized) else Retry, received, partial, lost)
    case Refused(permanent) => Progress(if permanent then Fatal(Permanent) else Retry, received, partial, lost)
    case Response(_, _, chunks) =>
      var end := RangeEnd(|received|, size);
      var rejection := Rejection(a, |received|, end, size);
      if rejection.Some? then Progress(Fatal(rejection.value), received, partial, lost)
      else RangeRead(chunks, size, end, 0, received, Contents(partial), lost)
  }

  /** What the whole call leaves. */
  datatype Final = Final(result: Result, disk: Disk, received: Bytes, lost: nat, requests: nat)

  /** The retry loop: k requests have been made, the last `failures` in vain. */
  function Fetched(sha: Bytes -> string, size: nat, digest: string, attempts: nat -> Attempt,
                   k: nat, received: Bytes, partial: Option<Bytes>, lost: nat, failures: nat): (f: Final)
    requires |received| <= size && Tracks(Contents(partial), received, lost) && (|received| > 0 ==> partial.Some?)
    requires failures < DOWNLOAD_RETRY_LIMIT
    ensures f.result == Returned ==> f.disk.installer.Some? && f.disk.partial == None
    ensures f.result == Returned ==>
            |f.received| == size && sha(f.received) == digest && Tracks(f.disk.installer.value, f.received, f.lost)
    ensures f.result != Returned ==> f.disk.installer == None
    ensures f.result == Raised(WrongChecksum) ==>
            f.disk.partial == None && |f.received| == size && sha(f.received) != digest
    ensures f.result == Raised(ExceededSize) ==> f.disk.partial == None && size > MAX_BUNDLE_BYTES
    ensures f.result.Raised? &&
            f.result.failure in {RetriesExhausted, Unauthorized, NotResumable, BadRange, Permanent} ==>
              Contents(partial) <= Contents(f.disk.partial)
    ensures f.result != Raised(WrongSize) && f.result != Raised(NothingToUnlink)
    ensures lost <= f.lost
    ensures f.requests + failures <= k + DOWNLOAD_RETRY_LIMIT * (size - |received|) + DOWNLOAD_RETRY_LIMIT
    decreases size - |received|, DOWNLOAD_RETRY_LIMIT - failures
  {
    if |received| < size then
      var p := RangeTried(attempts(k), size, received, partial, lost);
      match p.outcome
      case Fatal(failure) => Final(Raised(failure), Disk(None, p.file), p.received, p.lost, k + 1)
      case Complete => Fetched(sha, size, digest, attempts, k + 1, p.received, p.file, p.lost, 0)
      case Retry =>
        if |p.received| > |received| then Fetched(sha, size, digest, attempts, k + 1, p.received, p.file, p.lost, 0)
        else if failures + 1 >= DOWNLOAD_RETRY_LIMIT then
          Final(Raised(RetriesExhausted), Disk(None, p.file), p.received, p.lost, k + 1)
        else Fetched(sha, size, digest, attempts, k + 1, p.received, p.file, p.lost, failures + 1)
    else if sha(received) != digest then Final(Raised(WrongChecksum), Disk(None, None), received, lost, k)
    else Final(Returned, Disk(Some(Contents(partial)), None), received, lost, k)
  }

  /** The partial file a call starts from: none if it is longer than the signed
      size, or of that size with the wrong checksum. */
  function Usable(partial: Option<Bytes>, size: nat): Option<Bytes> {
    if |Contents(partial)| >= size then None else partial
  }

  /** `_download_installer` */
  function Downloaded(sha: Bytes -> string, size: nat, digest: string, disk: Disk, attempts: nat -> Attempt): Final {
    var partial := if |Contents(disk.partial)| > size then None else disk.partial;
    if Matches(sha, disk.installer, size, digest) then Final(Returned, disk, disk.installer.value, 0, 0)
    else if Matches(sha, partial, size, digest) then Final(Returned, Disk(partial, None), partial.value, 0, 0)
    else if |Contents(partial)| == size && partial == None then
      Final(Raised(NothingToUnlink), Disk(None, None), [], 0, 0)
    else Fetched(sha, size, digest, attempts, 0, Contents(Usable(partial, size)), Usable(partial, size), 0, 0)
  }

  // ----- the loops in their own form -----

  /** The inner loop: append one range, chunk by chunk. */
  method ReadRange(chunks: nat -> Read, size: nat, end: nat, received0: Bytes, file0: Bytes, lost0: nat)
    returns (outcome: Transfer, received: Bytes, file: Option<Bytes>, lost: nat)
    requires |received0| <= end < size && Tracks(file0, received0, lost0)
    ensures Progress(outcome, received, file, lost) == RangeRead(chunks, size, end, 0, received0, file0, lost0)
  {
    hide Tracks, OneRead;
    received, lost := received0, lost0;
    var written := file0;
    var j := 0;
    while |received| <= end
      invariant |received| <= end + 1 && Tracks(written, received, lost)
      invariant RangeRead(chunks, size, end, j, received, written, lost) ==
                RangeRead(chunks, size, end, 0, received0, file0, lost0)
      decreases end + 1 - |received|
    {
      outcome, received, file, lost := AppendRead(chunks(j), size, end, received, written, lost);
      if outcome != Complete {
        return;
      }
      written := file.value;
      j := j + 1;
    }
    return Complete, received, Some(written), lost;
  }

  /** The body of the inner loop. */
  method AppendRead(r: Read, size: nat, end: nat, received0: Bytes, written: Bytes, lost0: nat)
    returns (outcome: Transfer, received: Bytes, file: Option<Bytes>, lost: nat)
    requires |received0| <= end < size && Tracks(written, received0, lost0)
    ensures Progress(outcome, received, file, lost) == OneRead(r, size, end, received0, written, lost0)
  {
    hide Tracks;
    received, file, lost := received0, Some(written), lost0;
    var wanted := Min(DOWNLOAD_READ_BYTES, end - |received| + 1);
    match r {
      case Ended => outcome := Retry;
      case Broken(permanent) => outcome := if permanent then Fatal(Permanent) else Retry;
      case Data(bytes, kept, ok) =>
        var chunk := if |bytes| > wanted then bytes[..wanted] else bytes;
        if |chunk| == 0 {
          outcome := Retry;
          return;
        }
        received := received + chunk;
        if |received| > MAX_BUNDLE_BYTES || |received| > size {
          return Fatal(ExceededSize), received, None, lost;
        }
        var stored := Min(kept, |chunk|);
        file := Some(written + chunk[..stored]);
        lost := lost + (|chunk| - stored);
        outcome := if ok then Complete else Retry;
    }
  }

  method TryRange(a: Attempt, size: nat, received0: Bytes, partial0: Option<Bytes>, lost0: nat)
    returns (outcome: Transfer, received: Bytes, partial: Option<Bytes>, lost: nat)
    requires |received0| < size && Tracks(Contents(partial0), received0, lost0)
    ensures Progress(outcome, received, partial, lost) == RangeTried(a, size, received0, partial0, lost0)
  {
    hide RangeRead;
    received, partial, lost := received0, partial0, lost0;
    var start := |received0|;
    var end := Min(size - 1, start + DOWNLOAD_RANGE_BYTES - 1);
    match a {
      case HttpError(code) =>
        outcome := if code == 401 || code == 403 then Fatal(Unauthorized) else Retry;
      case Refused(permanent) =>
        outcome := if permanent then Fatal(Permanent) else Retry;
      case Response(_, _, chunks) =>
        var rejection := Rejection(a, start, end, size);
        if rejection.Some? {
          outcome := Fatal(rejection.value);
        } else {
          outcome, received, partial, lost := ReadRange(chunks, size, end, received0, Contents(partial0), lost0);
        }
    }
  }

  method DownloadInstaller(sha: Bytes -> string, size: nat, digest: string, disk0: Disk, attempts: nat -> Attempt)
    returns (r: Result, disk: Disk, received: Bytes, lost: nat, requests: nat)
    ensures Final(r, disk, received, lost, requests) == Downloaded(sha, size, digest, disk0, attempts)
  {
    hide Fetched;
    disk, received, lost, requests := disk0, [], 0, 0;
    if Matches(sha, disk.installer, size, digest) {
      return Returned, disk, disk.installer.value, 0, 0;
    }
    disk := disk.(installer := None);
    if |Contents(disk.partial)| > size {
      disk := disk.(partial := None);
    }
    ghost var leftover := disk.partial;
    if |Contents(disk.partial)| == size {
      if Matches(sha, disk.partial, size, digest) {
        return Returned, Disk(disk.partial, None), disk.partial.value, 0, 0;
      }
      if disk.partial == None {
        return Raised(NothingToUnlink), disk, [], 0, 0;
      }
      disk := disk.(partial := None);
    }
    assert disk.partial == Usable(leftover, size);
    r, disk, received, lost, requests := FetchRest(sha, size, digest, disk.partial, attempts);
  }

  /** The retry loop and the final check. */
  method FetchRest(sha: Bytes -> string, size: nat, digest: string, partial0: Option<Bytes>, attempts: nat -> Attempt)
    returns (r: Result, disk: Disk, received: Bytes, lost: nat, requests: nat)
    requires |Contents(partial0)| < size || (size == 0 && partial0 == None)
    ensures Final(r, disk, received, lost, requests) ==
            Fetched(sha, size, digest, attempts, 0, Contents(partial0), partial0, 0, 0)
  {
    hide RangeTried, Tracks;
    TracksItself(Contents(partial0));
    disk, received, lost, requests := Disk(None, partial0), Contents(partial0), 0, 0;
    var failures := 0;
    ghost var whole := Fetched(sha, size, digest, attempts, 0, Contents(partial0), partial0, 0, 0);
    while |received| < size
      invariant disk.installer == None && |received| <= size
      invariant |received| > 0 ==> disk.partial.Some?
      invariant Tracks(Contents(disk.partial), received, lost) && failures < DOWNLOAD_RETRY_LIMIT
      invariant Fetched(sha, size, digest, attempts, requests, received, disk.partial, lost, failures) == whole
      decreases size - |received|, DOWNLOAD_RETRY_LIMIT - failures
    {
      var before := |received|;
      var outcome, partial: Option<Bytes>;
      outcome, received, partial, lost := TryRange(attempts(requests), size, received, disk.partial, lost);
      disk := disk.(partial := partial);
      requests := requests + 1;
      match outcome {
        case Complete => failures := 0;
        case Fatal(failure) => return Raised(failure), disk, received, lost, requests;
        case Retry =>
          if |received| > before {
            failures := 0;
          } else {
            failures := failures + 1;
          }
          if failures >= DOWNLOAD_RETRY_LIMIT {
            return Raised(RetriesExhausted), disk, received, lost, requests;
          }
      }
    }
    if |received| != size {
      return Raised(WrongSize), disk, received, lost, requests;
    }
    if sha(received) != digest {
      return Raised(WrongChecksum), disk.(partial := None), received, lost, requests;
    }
    return Returned, Disk(Some(Contents(disk.partial)), None), received, lost, requests;
  }

  // ----- the theorems -----

  // ----- which answers count -----

  /** The last byte asked for: two mebibytes on, but not beyond the file. */
  function AskedEnd(received: nat, size: nat): int {
    if received + 2097152 <= size then received + 2097151 else size - 1
  }

  /** An answer is taken exactly if it is 206 with the range that was asked for, or 200
      where that range is the whole file; no other adds a byte or goes on: a 206 with
      another range is a bad range, any other status is not resumable, 401 and 403 are
      unauthorized, and other HTTP errors are retried. */
  lemma {:induction false} AnswersTaken(a: Attempt, size: nat, received: Bytes, partial: Option<Bytes>, lost: nat)
    requires |received| < size && Tracks(Contents(partial), received, lost)
    ensures var p := RangeTried(a, size, received, partial, lost);
            var end := AskedEnd(|received|, size);
            match a
            case HttpError(code) =>
              p == Progress(if code in {401, 403} then Fatal(Unauthorized) else Retry, received, partial, lost)
            case Refused(permanent) =>
              p == Progress(if permanent then Fatal(Permanent) else Retry, received, partial, lost)
            case Response(status, range, chunks) =>
              if (status == 206 && range == ContentRange(|received|, end, size)) ||
                 (status == 200 && received == [] && end == size - 1)
              then p == RangeRead(chunks, size, end, 0, received, Contents(partial), lost)
              else p == Progress(Fatal(if status == 206 then BadRange else NotResumable), received, partial, lost)
  {
    hide RangeRead, Tracks;
    assert AskedEnd(|received|, size) == RangeEnd(|received|, size);
  }

  // ----- the writes a call makes -----

  /** One write to the partial file; the disk keeps the first `kept` bytes. */
  datatype Write = Write(chunk: Bytes, kept: nat)

  ghost predicate AllWhole(writes: seq<Write>) {
    forall w :: w in writes ==> w.kept >= |w.chunk|
  }

  /** The writes of the reads of one range from the j-th on: what the server sends
      decides which, not what the disk does with them. */
  function RangeWrites(chunks: nat -> Read, size: nat, end: nat, j: nat, received: nat): seq<Write>
    requires received <= end + 1 <= size
    decreases end + 1 - received
  {
    if received > end || !chunks(j).Data? then []
    else
      var chunk := Clipped(chunks(j).bytes, received, end);
      var total := received + |chunk|;
      if |chunk| == 0 || total > MAX_BUNDLE_BYTES || total > size then []
      else [Write(chunk, chunks(j).kept)] + if chunks(j).ok then RangeWrites(chunks, size, end, j + 1, total) else []
  }

  function RequestWrites(a: Attempt, size: nat, received: nat): seq<Write>
    requires received < size
  {
    if !a.Response? || Rejection(a, received, RangeEnd(received, size), size).Some? then []
    else RangeWrites(a.chunks, size, RangeEnd(received, size), 0, received)
  }

  /** The writes of the retry loop. */
  function FetchWrites(attempts: nat -> Attempt, size: nat, k: nat, received: Bytes, partial: Option<Bytes>,
                       lost: nat, failures: nat): seq<Write>
    requires |received| <= size && Tracks(Contents(partial), received, lost) && (|received| > 0 ==> partial.Some?)
    requires failures < DOWNLOAD_RETRY_LIMIT
    decreases size - |received|, DOWNLOAD_RETRY_LIMIT - failures
  {
    if |received| == size then []
    else
      var p := RangeTried(attempts(k), size, received, partial, lost);
      RequestWrites(attempts(k), size, |received|) +
      if p.outcome.Fatal? then []
      else if |p.received| > |received| then FetchWrites(attempts, size, k + 1, p.received, p.file, p.lost, 0)
      else if failures + 1 >= DOWNLOAD_RETRY_LIMIT then []
      else FetchWrites(attempts, size, k + 1, p.received, p.file, p.lost, failures + 1)
  }

  /** All writes of a call: none when a verified file is there already. */
  function Writes(sha: Bytes -> string, size: nat, digest: string, disk: Disk, attempts: nat -> Attempt): seq<Write> {
    var partial := if |Contents(disk.partial)| > size then None else disk.partial;
    if Matches(sha, disk.installer, size, digest) || Matches(sha, partial, size, digest) ||
       (|Contents(partial)| == size && partial == None)
    then [] else FetchWrites(attempts, size, 0, Contents(Usable(partial, size)), Usable(partial, size), 0, 0)
  }

  lemma {:induction false} WholeConcat(a: seq<Write>, b: seq<Write>)
    ensures AllWhole(a + b) <==> AllWhole(a) && AllWhole(b)
  {
    assert forall w :: w in a ==> w in a + b;
    assert forall w :: w in b ==> w in a + b;
  }

  lemma {:induction false} RangeLosses(chunks: nat -> Read, size: nat, end: nat, j: nat, received: Bytes,
      written: Bytes, lost: nat)
    requires |received| <= end + 1 <= size && Tracks(written, received, lost)
    ensures RangeRead(chunks, size, end, j, received, written, lost).lost == lost <==>
            AllWhole(RangeWrites(chunks, size, end, j, |received|))
    decreases end + 1 - |received|
  {
    hide Tracks, OneRead, Clipped, RangeRead, AllWhole;
    NoWrites();
    if |received| <= end {
      RangeStep(chunks, size, end, j, received, written, lost);
      var p := OneRead(chunks(j), size, end, received, written, lost);
      if p.outcome == Complete {
        RangeLosses(chunks, size, end, j + 1, p.received, p.file.value, p.lost);
        var w := Write(Clipped(chunks(j).bytes, |received|, end), chunks(j).kept);
        WholeConcat([w], RangeWrites(chunks, size, end, j + 1, |p.received|));
      }
    } else {
      RangeStep(chunks, size, end, j, received, written, lost);
    }
  }

  lemma {:induction false} NoWrites()
    ensures AllWhole([])
    ensures forall w: Write :: AllWhole([w]) <==> w.kept >= |w.chunk|
  {
    forall w: Write ensures AllWhole([w]) <==> w.kept >= |w.chunk| { assert w in [w]; }
  }

  lemma {:induction false} RangeStep(chunks: nat -> Read, size: nat, end: nat, j: nat, received: Bytes,
      written: Bytes, lost: nat)
    requires |received| <= end + 1 <= size && Tracks(written, received, lost)
    ensures |received| > end ==>
              RangeRead(chunks, size, end, j, received, written, lost).lost == lost &&
              RangeWrites(chunks, size, end, j, |received|) == []
    ensures |received| <= end ==>
              var p := OneRead(chunks(j), size, end, received, written, lost);
              && (p.outcome != Complete ==>
                    RangeRead(chunks, size, end, j, received, written, lost).lost == p.lost &&
                    (AllWhole(RangeWrites(chunks, size, end, j, |received|)) <==> p.lost == lost))
              && (p.outcome == Complete ==>
                    RangeRead(chunks, size, end, j, received, written, lost) ==
                      RangeRead(chunks, size, end, j + 1, p.received, p.file.value, p.lost) &&
                    var w := Write(Clipped(chunks(j).bytes, |received|, end), chunks(j).kept);
                    RangeWrites(chunks, size, end, j, |received|) ==
                      [w] + RangeWrites(chunks, size, end, j + 1, |p.received|) &&
                    (p.lost == lost <==> w.kept >= |w.chunk|))
  {
    hide Tracks;
    NoWrites();
  }

  lemma {:induction false} RequestLosses(a: Attempt, size: nat, received: Bytes, partial: Option<Bytes>, lost: nat)
    requires |received| < size && Tracks(Contents(partial), received, lost)
    ensures RangeTried(a, size, received, partial, lost).lost == lost <==> AllWhole(RequestWrites(a, size, |received|))
  {
    hide Tracks, RangeRead, RangeWrites, AllWhole;
    NoWrites();
    if a.Response? {
      RangeLosses(a.chunks, size, RangeEnd(|received|, size), 0, received, Contents(partial), lost);
    }
  }

  /** A call has lost nothing exactly if every write it made was whole. */
  lemma {:induction false} FetchLosses(sha: Bytes -> string, size: nat, digest: string, attempts: nat -> Attempt,
                                      k: nat, received: Bytes, partial: Option<Bytes>, lost: nat, failures: nat)
    requires |received| <= size && Tracks(Contents(partial), received, lost) && (|received| > 0 ==> partial.Some?)
    requires failures < DOWNLOAD_RETRY_LIMIT
    ensures Fetched(sha, size, digest, attempts, k, received, partial, lost, failures).lost == lost <==>
            AllWhole(FetchWrites(attempts, size, k, received, partial, lost, failures))
    decreases size - |received|, DOWNLOAD_RETRY_LIMIT - failures
  {
    hide Tracks, RangeTried, RequestWrites, AllWhole;
    NoWrites();
    if |received| < size {
      RequestLosses(attempts(k), size, received, partial, lost);
      var p := RangeTried(attempts(k), size, received, partial, lost);
      var now := RequestWrites(attempts(k), size, |received|);
      assert now + [] == now;
      if p.outcome.Fatal? {
      } else if |p.received| > |received| {
        FetchLosses(sha, size, digest, attempts, k + 1, p.received, p.file, p.lost, 0);
        WholeConcat(now, FetchWrites(attempts, size, k + 1, p.received, p.file, p.lost, 0));
      } else if failures + 1 < DOWNLOAD_RETRY_LIMIT {
        FetchLosses(sha, size, digest, attempts, k + 1, p.received, p.file, p.lost, failures + 1);
        WholeConcat(now, FetchWrites(attempts, size, k + 1, p.received, p.file, p.lost, failures + 1));
      }
    }
  }

  lemma {:induction false} AtomicRange(chunks: nat -> Read, size: nat, end: nat, j: nat, received: nat)
    requires received <= end + 1 <= size && forall k: nat :: Atomic(chunks(k))
    ensures AllWhole(RangeWrites(chunks, size, end, j, received))
    decreases end + 1 - received
  {
    hide AllWhole;
    NoWrites();
    if received <= end && chunks(j).Data? {
      assert Atomic(chunks(j));
      var chunk := Clipped(chunks(j).bytes, received, end);
      var total := received + |chunk|;
      if |chunk| > 0 && total <= MAX_BUNDLE_BYTES && total <= size {
        AtomicRange(chunks, size, end, j + 1, total);
        var w := [Write(chunk, chunks(j).kept)];
        WholeConcat(w, RangeWrites(chunks, size, end, j + 1, total));
        WholeConcat(w, []);
      }
    }
  }

  lemma {:induction false} AtomicFetch(attempts: nat -> Attempt, size: nat, k: nat, received: Bytes,
                                      partial: Option<Bytes>, lost: nat, failures: nat)
    requires |received| <= size && Tracks(Contents(partial), received, lost) && (|received| > 0 ==> partial.Some?)
    requires failures < DOWNLOAD_RETRY_LIMIT && forall j: nat :: AtomicWrites(attempts(j))
    ensures AllWhole(FetchWrites(attempts, size, k, received, partial, lost, failures))
    decreases size - |received|, DOWNLOAD_RETRY_LIMIT - failures
  {
    hide Tracks, RangeTried, AllWhole, RangeWrites;
    NoWrites();
    if |received| < size {
      var a := attempts(k);
      assert AtomicWrites(a);
      if a.Response? { AtomicRange(a.chunks, size, RangeEnd(|received|, size), 0, |received|); }
      var p := RangeTried(a, size, received, partial, lost);
      var now := RequestWrites(a, size, |received|);
      assert AllWhole(now) && now + [] == now;
      if p.outcome.Fatal? {
      } else if |p.received| > |received| {
        AtomicFetch(attempts, size, k + 1, p.received, p.file, p.lost, 0);
        WholeConcat(now, FetchWrites(attempts, size, k + 1, p.received, p.file, p.lost, 0));
      } else if failures + 1 < DOWNLOAD_RETRY_LIMIT {
        AtomicFetch(attempts, size, k + 1, p.received, p.file, p.lost, failures + 1);
        WholeConcat(now, FetchWrites(attempts, size, k + 1, p.received, p.file, p.lost, failures + 1));
      }
    }
  }

  /** A returned installer has the signed size if and only if every write of the call
      reached the disk whole, and then its checksum is the signed one too. */
  lemma {:induction false} ReturnedInstaller(sha: Bytes -> string, size: nat, digest: string, disk: Disk,
      attempts: nat -> Attempt)
    requires Downloaded(sha, size, digest, disk, attempts).result == Returned
    ensures var f := Downloaded(sha, size, digest, disk, attempts);
            && f.disk.installer.Some? && |f.received| == size && sha(f.received) == digest
            && (|f.disk.installer.value| == size <==> AllWhole(Writes(sha, size, digest, disk, attempts)))
            && (AllWhole(Writes(sha, size, digest, disk, attempts)) ==> Matches(sha, f.disk.installer, size, digest))
  {
    hide Fetched, FetchWrites, AllWhole;
    NoWrites();
    var partial := Usable(if |Contents(disk.partial)| > size then None else disk.partial, size);
    FetchLosses(sha, size, digest, attempts, 0, Contents(partial), partial, 0, 0);
  }

  /** With atomic writes that is always so, whatever the server and the connection do
      and whatever partial file was left behind. */
  lemma {:induction false} AtomicInstaller(sha: Bytes -> string, size: nat, digest: string, disk: Disk,
      attempts: nat -> Attempt)
    requires Downloaded(sha, size, digest, disk, attempts).result == Returned
    requires forall j: nat :: AtomicWrites(attempts(j))
    ensures Matches(sha, Downloaded(sha, size, digest, disk, attempts).disk.installer, size, digest)
  {
    hide Fetched, FetchWrites, AllWhole, AtomicWrites, Downloaded, Matches;
    NoWrites();
    ReturnedInstaller(sha, size, digest, disk, attempts);
    var partial := Usable(if |Contents(disk.partial)| > size then None else disk.partial, size);
    AtomicFetch(attempts, size, 0, Contents(partial), partial, 0, 0);
  }

  /** A failed call leaves no installer. After a failure that is not about the
      bytes, everything the partial file held is still there to resume from. And
      the server is asked at most five times a missing byte, plus five. */
  lemma {:induction false} FailedDownload(sha: Bytes -> string, size: nat, digest: string, disk: Disk,
      attempts: nat -> Attempt)
    ensures var f := Downloaded(sha, size, digest, disk, attempts);
            && (f.result != Returned ==> f.disk.installer == None)
            && (|Contents(disk.partial)| < size && f.result.Raised? &&
                f.result.failure in {RetriesExhausted, Unauthorized, NotResumable, BadRange, Permanent} ==>
                  Contents(disk.partial) <= Contents(f.disk.partial))
            && (f.result == Raised(WrongChecksum) || f.result == Raised(ExceededSize) ==> f.disk.partial == None)
            && (f.result == Raised(ExceededSize) ==> size > MAX_BUNDLE_BYTES)
            && f.result != Raised(WrongSize)
            && (f.result == Raised(NothingToUnlink) <==>
                  size == 0 && disk.partial != Some([]) && !Matches(sha, disk.installer, 0, digest))
            && f.requests <= DOWNLOAD_RETRY_LIMIT * size + DOWNLOAD_RETRY_LIMIT
  {
    hide Fetched;
  }

  /** Without atomic writes the property is false: the last write of a download
      keeps one of its two bytes and fails, the digest has both, and the call
      returns a file of one byte. */
  lemma {:induction false} LostWriteIsReturned(sha: Bytes -> string)
    ensures var attempts: nat -> Attempt := k => Response(200, Absent, j => Data([1, 2], 1, false));
            var f := Downloaded(sha, 2, sha([1, 2]), Disk(None, None), attempts);
            f.result == Returned && f.disk.installer == Some([1])
  {
    var attempts: nat -> Attempt := k => Response(200, Absent, j => Data([1, 2], 1, false));
    var p := RangeTried(attempts(0), 2, [], None, 0);
    var nothing: Bytes, both: Bytes := [], [1, 2];
    assert nothing + both == both && nothing + both[..1] == [1];
    assert p == Progress(Retry, [1, 2], Some([1]), 1);
  }
}
