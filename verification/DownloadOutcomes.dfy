/** When the installer download succeeds and when it gives up, in terms of what the
    server does. */
module DownloadOutcomes {
  import opened Basics
  import opened Options
  import opened Download

  // ----- a server that keeps its word -----

  /** The answer to a request for the bundle from `start` on: the range that was asked
      for, with all that is left of the bundle in every read, all of it written. */
  function Serves(bundle: Bytes, start: nat): Attempt {
    Response(206, ContentRange(start, AskedEnd(start, |bundle|), |bundle|),
             (j: nat) => Data(bundle[Min(start + j * 65536, |bundle|)..], |bundle|, true))
  }

  lemma {:induction false} RangeServed(bundle: Bytes, start: nat, end: nat, j: nat, at: nat)
    requires start <= at <= end + 1 <= |bundle| <= MAX_BUNDLE_BYTES
    requires at == start + j * 65536 || at == end + 1
    ensures Tracks(bundle[..at], bundle[..at], 0)
    ensures RangeRead(Serves(bundle, start).chunks, |bundle|, end, j, bundle[..at], bundle[..at], 0) ==
            Progress(Complete, bundle[..end + 1], Some(bundle[..end + 1]), 0)
    decreases end + 1 - at
  {
    if at <= end {
      var next := if at + 65536 <= end + 1 then at + 65536 else end + 1;
      ReadServed(bundle, start, end, j, at);
      assert next == start + (j + 1) * 65536 || next == end + 1;
      RangeServed(bundle, start, end, j + 1, next);
    }
  }

  lemma {:induction false} ReadServed(bundle: Bytes, start: nat, end: nat, j: nat, at: nat)
    requires start <= at <= end < |bundle| <= MAX_BUNDLE_BYTES && at == start + j * 65536
    ensures Tracks(bundle[..at], bundle[..at], 0)
    ensures var next := if at + 65536 <= end + 1 then at + 65536 else end + 1;
            OneRead(Serves(bundle, start).chunks(j), |bundle|, end, bundle[..at], bundle[..at], 0) ==
            Progress(Complete, bundle[..next], Some(bundle[..next]), 0)
  {
    var next := if at + 65536 <= end + 1 then at + 65536 else end + 1;
    var chunk := Clipped(bundle[at..], at, end);
    assert chunk == bundle[at..next];
    assert bundle[..at] + chunk == bundle[..next];
    assert chunk[..|chunk|] == chunk;
  }

  lemma {:induction false} RequestServed(bundle: Bytes, start: nat, partial: Option<Bytes>)
    requires start < |bundle| <= MAX_BUNDLE_BYTES && Contents(partial) == bundle[..start]
    ensures Tracks(Contents(partial), bundle[..start], 0)
    ensures var next := AskedEnd(start, |bundle|) + 1;
            RangeTried(Serves(bundle, start), |bundle|, bundle[..start], partial, 0) ==
            Progress(Complete, bundle[..next], Some(bundle[..next]), 0)
  {
    hide RangeRead;
    var end := AskedEnd(start, |bundle|);
    RangeServed(bundle, start, end, 0, start);
    AnswersTaken(Serves(bundle, start), |bundle|, bundle[..start], partial, 0);
  }

  lemma {:induction false} FetchServed(sha: Bytes -> string, bundle: Bytes, attempts: nat -> Attempt,
      from: nat, k: nat, partial: Option<Bytes>)
    requires |bundle| <= MAX_BUNDLE_BYTES
    requires forall i: nat :: from + i * 2097152 < |bundle| ==> attempts(i) == Serves(bundle, from + i * 2097152)
    requires var at := Min(from + k * 2097152, |bundle|);
             Contents(partial) == bundle[..at] && (at > 0 ==> partial.Some?)
    ensures var at := Min(from + k * 2097152, |bundle|);
            && Tracks(Contents(partial), bundle[..at], 0)
            && var f := Fetched(sha, |bundle|, sha(bundle), attempts, k, bundle[..at], partial, 0, 0);
               f.result == Returned && f.disk.installer == Some(bundle)
    decreases |bundle| - Min(from + k * 2097152, |bundle|)
  {
    hide RangeTried, Serves, Tracks;
    var at := Min(from + k * 2097152, |bundle|);
    TracksItself(bundle[..at]);
    if at < |bundle| {
      RequestServed(bundle, at, partial);
      var next := AskedEnd(at, |bundle|) + 1;
      assert next == Min(from + (k + 1) * 2097152, |bundle|);
      FetchServed(sha, bundle, attempts, from, k + 1, Some(bundle[..next]));
    } else {
      assert bundle[..at] == bundle;
    }
  }

  /** With a server that serves every range that is asked for, the download returns
      exactly the bundle, from nothing or from any front of it that was left behind. */
  lemma {:induction false} GoodServerReturns(sha: Bytes -> string, bundle: Bytes, partial: Option<Bytes>,
      attempts: nat -> Attempt)
    requires 0 < |bundle| <= MAX_BUNDLE_BYTES
    requires |Contents(partial)| < |bundle| && Contents(partial) == bundle[..|Contents(partial)|]
    requires var from := |Contents(partial)|;
             forall i: nat :: from + i * 2097152 < |bundle| ==> attempts(i) == Serves(bundle, from + i * 2097152)
    ensures var f := Downloaded(sha, |bundle|, sha(bundle), Disk(None, partial), attempts);
            f.result == Returned && f.disk == Disk(Some(bundle), None)
  {
    hide Fetched, Serves;
    FetchServed(sha, bundle, attempts, |Contents(partial)|, 0, partial);
  }

  // ----- giving up -----

  /** The request brings no byte and may be repeated: an HTTP error that is not about
      authorization, a refusal or a break that is not permanent, or an empty read. */
  predicate Fruitless(a: Attempt, size: nat, received: nat)
    requires received < size
  {
    match a
    case HttpError(code) => code !in {401, 403}
    case Refused(permanent) => !permanent
    case Response(status, range, chunks) =>
      && ((status == 206 && range == ContentRange(received, AskedEnd(received, size), size)) ||
          (status == 200 && received == 0 && AskedEnd(received, size) == size - 1))
      && (chunks(0).Ended? || chunks(0) == Broken(false) || (chunks(0).Data? && chunks(0).bytes == []))
  }

  lemma {:induction false} FruitlessExactly(a: Attempt, size: nat, received: Bytes, partial: Option<Bytes>, lost: nat)
    requires |received| < size && Tracks(Contents(partial), received, lost)
    ensures var p := RangeTried(a, size, received, partial, lost);
            p.outcome == Retry && p.received == received <==> Fruitless(a, size, |received|)
  {
    hide RangeTried, Tracks;
    AnswersTaken(a, size, received, partial, lost);
    if a.Response? {
      FirstRead(a.chunks, size, AskedEnd(|received|, size), received, Contents(partial), lost);
    }
  }

  lemma {:induction false} FirstRead(chunks: nat -> Read, size: nat, end: nat, received: Bytes, written: Bytes,
      lost: nat)
    requires |received| <= end < size && Tracks(written, received, lost)
    ensures var p := RangeRead(chunks, size, end, 0, received, written, lost);
            p.outcome == Retry && p.received == received <==>
            chunks(0).Ended? || chunks(0) == Broken(false) || (chunks(0).Data? && chunks(0).bytes == [])
  {
    hide Tracks, RangeRead;
    RangeStep(chunks, size, end, 0, received, written, lost);
    var p := OneRead(chunks(0), size, end, received, written, lost);
    FirstReadIs(chunks(0), size, end, received, written, lost);
    if p.outcome == Complete {
      assert |RangeRead(chunks, size, end, 0, received, written, lost).received| >= |p.received| > |received|;
    } else {
      RangeStops(chunks, size, end, received, written, lost);
    }
  }

  lemma {:induction false} FirstReadIs(r: Read, size: nat, end: nat, received: Bytes, written: Bytes, lost: nat)
    requires |received| <= end < size && Tracks(written, received, lost)
    ensures var p := OneRead(r, size, end, received, written, lost);
            p.outcome == Retry && p.received == received <==>
            r.Ended? || r == Broken(false) || (r.Data? && r.bytes == [])
  {
    hide Tracks;
    if r.Data? && Clipped(r.bytes, |received|, end) != [] {
      assert |received + Clipped(r.bytes, |received|, end)| > |received|;
    }
  }

  lemma {:induction false} RangeStops(chunks: nat -> Read, size: nat, end: nat, received: Bytes, written: Bytes,
      lost: nat)
    requires |received| <= end < size && Tracks(written, received, lost)
    ensures var p := OneRead(chunks(0), size, end, received, written, lost);
            p.outcome != Complete ==> RangeRead(chunks, size, end, 0, received, written, lost) == p
  {
    hide Tracks, OneRead;
  }

  /** Giving up means that the last five requests were fruitless, those counted already
      among them. */
  lemma {:induction false} GaveUpAfterFive(sha: Bytes -> string, size: nat, digest: string, attempts: nat -> Attempt,
      k: nat, received: Bytes, partial: Option<Bytes>, lost: nat, failures: nat)
    requires |received| <= size && Tracks(Contents(partial), received, lost) && (|received| > 0 ==> partial.Some?)
    requires failures < DOWNLOAD_RETRY_LIMIT
    ensures var f := Fetched(sha, size, digest, attempts, k, received, partial, lost, failures);
            f.result == Raised(RetriesExhausted) ==>
              && f.requests >= k && |f.received| < size
              && (f.requests >= k + 5 || (f.received == received && f.requests + failures == k + 5))
              && forall j: nat :: k <= j < f.requests && f.requests - 5 <= j ==>
                   Fruitless(attempts(j), size, |f.received|)
    decreases size - |received|, DOWNLOAD_RETRY_LIMIT - failures
  {
    hide RangeTried, Tracks, Fruitless;
    if |received| < size {
      FruitlessExactly(attempts(k), size, received, partial, lost);
      var p := RangeTried(attempts(k), size, received, partial, lost);
      if p.outcome.Fatal? {
      } else if |p.received| > |received| {
        GaveUpAfterFive(sha, size, digest, attempts, k + 1, p.received, p.file, p.lost, 0);
      } else {
        assert p.received == received;
        if failures + 1 < DOWNLOAD_RETRY_LIMIT {
          GaveUpAfterFive(sha, size, digest, attempts, k + 1, p.received, p.file, p.lost, failures + 1);
        }
      }
    }
  }

  /** Five fruitless requests in a row make it give up, whatever came before. */
  lemma {:induction false} FiveMakeItGiveUp(sha: Bytes -> string, size: nat, digest: string, attempts: nat -> Attempt,
      k: nat, received: Bytes, partial: Option<Bytes>, lost: nat, failures: nat)
    requires |received| < size && Tracks(Contents(partial), received, lost) && (|received| > 0 ==> partial.Some?)
    requires failures < DOWNLOAD_RETRY_LIMIT
    requires forall j: nat :: k <= j < k + 5 - failures ==> Fruitless(attempts(j), size, |received|)
    ensures var f := Fetched(sha, size, digest, attempts, k, received, partial, lost, failures);
            f.result == Raised(RetriesExhausted) && f.received == received && f.requests == k + 5 - failures
    decreases DOWNLOAD_RETRY_LIMIT - failures
  {
    hide RangeTried, Tracks, Fruitless;
    FruitlessExactly(attempts(k), size, received, partial, lost);
    var p := RangeTried(attempts(k), size, received, partial, lost);
    if failures + 1 < DOWNLOAD_RETRY_LIMIT {
      FiveMakeItGiveUp(sha, size, digest, attempts, k + 1, p.received, p.file, p.lost, failures + 1);
    }
  }
}
