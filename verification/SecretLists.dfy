/** Several secrets at once: when the streaming filter shows what redacting the whole
    text shows. */
module SecretLists {
  import opened Text
  import opened Redaction
  import opened StreamParser

  /** `_emit_public_delta`: what is made visible, and the redaction buffer after it. */
  function Publish(order: seq<string>, secrets: seq<string>, pending: string, text: string, completed: bool): Flow
    requires AllNonEmpty(order) && AllNonEmpty(secrets)
  {
    if completed then Flow(RedactAll(order, pending + text), "")
    else
      var buffer := RedactAll(order, pending + text);
      var keep := HeldBy(buffer, secrets, 0);
      Flow(buffer[..|buffer| - keep], buffer[|buffer| - keep..])
  }

  /** Publishing a run of emissions. */
  function PublishAll(order: seq<string>, secrets: seq<string>, es: seq<Emission>): Flow
    requires AllNonEmpty(order) && AllNonEmpty(secrets)
  {
    if es == [] then Flow("", "")
    else AfterEmission(order, secrets, PublishAll(order, secrets, es[..|es| - 1]), es[|es| - 1])
  }

  function AfterEmission(order: seq<string>, secrets: seq<string>, flow: Flow, e: Emission): Flow
    requires AllNonEmpty(order) && AllNonEmpty(secrets)
  {
    match e
    case Silent => flow
    case Emit(text, completed, _) =>
      var now := Publish(order, secrets, flow.pending, text, completed);
      Flow(flow.shown + now.shown, now.pending)
  }

  // ----- secrets and the marker -----

  /** Laid over the marker at offset d, the secret differs from it somewhere. */
  predicate Clashes(secret: string, d: int) {
    exists k :: 0 <= k < |secret| && 0 <= d + k < |REDACTED_VALUE| && secret[k] != REDACTED_VALUE[d + k]
  }

  /** No occurrence of the secret can touch a marker. */
  predicate Apart(secret: string) {
    forall d :: -|secret| < d < |REDACTED_VALUE| ==> Clashes(secret, d)
  }

  ghost predicate AllApart(secrets: seq<string>) {
    forall i :: 0 <= i < |secrets| ==> secrets[i] != "" && Apart(secrets[i])
  }

  /** Every secret that has no angle bracket and is no part of the word in the marker. */
  lemma {:induction false} NoAngleIsApart(secret: string)
    requires secret != "" && '<' !in secret && '>' !in secret && Find(REDACTED_VALUE, secret) == -1
    ensures Apart(secret)
  {
    hide FindFrom;
    FindIsFirst(REDACTED_VALUE, secret);
    forall d | -|secret| < d < |REDACTED_VALUE| ensures Clashes(secret, d) {
      if d < 0 {
        assert secret[-d] != REDACTED_VALUE[d + -d];
      } else if |secret| > |REDACTED_VALUE| - d {
        assert secret[9 - d] != REDACTED_VALUE[d + (9 - d)];
      } else {
        assert !OccursAt(REDACTED_VALUE, secret, d);
        assert REDACTED_VALUE[d..d + |secret|] != secret;
      }
    }
  }

  lemma {:induction false} ApartIsSafe(secret: string)
    requires Apart(secret)
    ensures SafeSecret(secret)
  {
    forall k | 0 < k < |secret|
      ensures !EndsWith(REDACTED_VALUE, secret[..k]) && !EndsWith(secret[..k], REDACTED_VALUE)
    {
      var d := |REDACTED_VALUE| - k;
      assert Clashes(secret, d);
      var c :| 0 <= c < |secret| && 0 <= d + c < |REDACTED_VALUE| && secret[c] != REDACTED_VALUE[d + c];
      if k <= |REDACTED_VALUE| {
        assert REDACTED_VALUE[d..][c] == REDACTED_VALUE[d + c];
      } else {
        assert secret[..k][-d..][d + c] == secret[c];
      }
    }
  }

  lemma {:induction false} Aside(secret: string, head: string, tail: string, j: nat)
    requires Apart(secret) && OccursAt(head + REDACTED_VALUE + tail, secret, j)
    ensures j + |secret| <= |head| || |head| + |REDACTED_VALUE| <= j
  {
    hide Clashes, OccursAt;
    var d := j - |head|;
    if -|secret| < d < |REDACTED_VALUE| { LaidOver(secret, head, tail, j); }
  }

  lemma {:induction false} LaidOver(secret: string, head: string, tail: string, j: nat)
    requires OccursAt(head + REDACTED_VALUE + tail, secret, j)
    ensures !Clashes(secret, j - |head|)
  {
    var d := j - |head|;
    forall k | 0 <= k < |secret| && 0 <= d + k < |REDACTED_VALUE| ensures secret[k] == REDACTED_VALUE[d + k] {
      MarkerChar(head, tail, d + k);
      CharAt(head + REDACTED_VALUE + tail, secret, j, k);
    }
  }

  lemma {:induction false} MarkerChar(head: string, tail: string, k: nat)
    requires k < |REDACTED_VALUE|
    ensures (head + REDACTED_VALUE + tail)[|head| + k] == REDACTED_VALUE[k]
  {
  }

  /** Markers cut a text into parts that are redacted alone. */
  lemma {:induction false} MarkerSeparates(secret: string, head: string, tail: string)
    requires secret != "" && Apart(secret)
    ensures Redact(secret, head + REDACTED_VALUE + tail) ==
            Redact(secret, head) + REDACTED_VALUE + Redact(secret, tail)
    decreases |head|
  {
    hide FindFrom, Replace, Apart;
    var front := head + REDACTED_VALUE;
    var i := Find(head, secret);
    FindIsFirst(head, secret);
    if i == -1 {
      ReplaceMiss(head, secret, REDACTED_VALUE);
      forall j | 0 <= j < |front| ensures !OccursAt(front + tail, secret, j) {
        BeforeMarker(secret, head, tail, j);
      }
      ReplaceAfter(front, tail, secret, REDACTED_VALUE);
    } else {
      var rest := head[i + |secret|..];
      MarkerSeparates(secret, rest, tail);
      FindStable(head, REDACTED_VALUE + tail, secret);
      Assoc3(head, REDACTED_VALUE, tail);
      SplitFront(head, REDACTED_VALUE + tail, i, |secret|);
      Assoc3(rest, REDACTED_VALUE, tail);
      ReplaceHit(head, secret, REDACTED_VALUE, i);
      ReplaceHit(front + tail, secret, REDACTED_VALUE, i);
      Regroup(head[..i] + REDACTED_VALUE, Redact(secret, rest), REDACTED_VALUE, Redact(secret, tail));
    }
  }

  lemma {:induction false} Regroup(a: string, b: string, c: string, d: string)
    ensures a + (b + c + d) == (a + b) + c + d
  {
  }

  lemma {:induction false} BeforeMarker(secret: string, head: string, tail: string, j: nat)
    requires secret != "" && Apart(secret) && Find(head, secret) == -1 && j < |head| + |REDACTED_VALUE|
    ensures !OccursAt(head + REDACTED_VALUE + tail, secret, j)
  {
    hide FindFrom, Apart;
    FindIsFirst(head, secret);
    if OccursAt(head + REDACTED_VALUE + tail, secret, j) {
      Aside(secret, head, tail, j);
      Assoc3(head, REDACTED_VALUE, tail);
      OccursExtend(head, REDACTED_VALUE + tail, secret, j);
    }
  }

  lemma {:induction false} MarkersSeparate(order: seq<string>, head: string, tail: string)
    requires AllApart(order)
    ensures RedactAll(order, head + REDACTED_VALUE + tail) ==
            RedactAll(order, head) + REDACTED_VALUE + RedactAll(order, tail)
    decreases |order|
  {
    hide Replace, Apart;
    if order != [] {
      MarkerSeparates(order[0], head, tail);
      MarkersSeparate(order[1..], Redact(order[0], head), Redact(order[0], tail));
    }
  }

  // ----- where nothing occurs -----

  /** No secret occurs in the text at a position before n. */
  ghost predicate Free(order: seq<string>, text: string, n: nat) {
    forall w, j :: w in order && 0 <= j < n ==> !OccursAt(text, w, j)
  }

  lemma {:induction false} FreeFindsNone(order: seq<string>, text: string, w: string)
    requires Free(order, text, |text| + 1) && w in order
    ensures Find(text, w) == -1
  {
    hide FindFrom;
    FindIsFirst(text, w);
  }

  lemma {:induction false} Untouched(order: seq<string>, text: string)
    requires AllNonEmpty(order) && Free(order, text, |text| + 1)
    ensures RedactAll(order, text) == text
    decreases |order|
  {
    hide Replace, OccursAt, FindFrom;
    if order != [] {
      FreeFindsNone(order, text, order[0]);
      ReplaceMiss(text, order[0], REDACTED_VALUE);
      assert Free(order[1..], text, |text| + 1);
      Untouched(order[1..], text);
    }
  }

  /** Redacting behind a head brings no occurrence into it. */
  lemma {:induction false} StillFree(w: string, head: string, tail: string, v: string, j: nat)
    requires w != "" && Apart(v) && j < |head| && !OccursAt(head + tail, v, j)
    ensures !OccursAt(head + Redact(w, tail), v, j)
  {
    hide FindFrom, Replace, Apart, OccursAt;
    var i := Find(tail, w);
    if i == -1 {
      ReplaceMiss(tail, w, REDACTED_VALUE);
    } else {
      ReplaceHit(tail, w, REDACTED_VALUE, i);
      var front, rest, after := head + tail[..i], Redact(w, tail[i + |w|..]), tail[i..];
      assert head + Redact(w, tail) == front + REDACTED_VALUE + rest;
      assert head + tail == front + after;
      if OccursAt(front + REDACTED_VALUE + rest, v, j) {
        Aside(v, front, rest, j);
        Assoc3(front, REDACTED_VALUE, rest);
        OccursExtend(front, REDACTED_VALUE + rest, v, j);
        OccursExtend(front, after, v, j);
      }
    }
  }

  lemma {:induction false} KeepsHead(order: seq<string>, head: string, tail: string)
    requires AllApart(order) && Free(order, head + tail, |head|)
    ensures RedactAll(order, head + tail) == head + RedactAll(order, tail)
    decreases |order|
  {
    hide Replace, OccursAt, Apart;
    if order != [] {
      ReplaceAfter(head, tail, order[0], REDACTED_VALUE);
      var next := Redact(order[0], tail);
      forall w, j | w in order[1..] && 0 <= j < |head| ensures !OccursAt(head + next, w, j) {
        StillFree(order[0], head, tail, w, j);
      }
      KeepsHead(order[1..], head, next);
    }
  }

  // ----- the leftmost occurrence -----

  /** u occurs in v, and v goes on behind it. */
  predicate Inside(u: string, v: string) {
    exists p :: 0 <= p < |v| && p + |u| < |v| && OccursAt(v, u, p)
  }

  /** A proper end of v is a proper front of u. */
  predicate RunsInto(v: string, u: string) {
    exists n :: 0 < n < |v| && n < |u| && EndsWith(v, u[..n])
  }

  /** In this list s may be replaced wherever it is the leftmost occurrence. */
  ghost predicate Yields(order: seq<string>, s: string) {
    && (forall w :: w in order ==> !Inside(s, w))
    && (forall i :: 0 <= i < |order| && s !in order[..i + 1] ==> |order[i]| >= |s| && !RunsInto(s, order[i]))
  }

  lemma {:induction false} NothingEarlier(w: string, head: string, s: string, rest: string, j: nat)
    requires !Inside(s, w) && j < |head| && !OccursAt(head + s, w, j)
    ensures !OccursAt(head + s + rest, w, j)
  {
    hide Inside;
    if j + |w| <= |head + s| {
      OccursExtend(head + s, rest, w, j);
    } else if OccursAt(head + s + rest, w, j) {
      CoveringHolds(w, head, s, rest, j);
    }
  }

  lemma {:induction false} CoveringHolds(w: string, head: string, s: string, rest: string, j: nat)
    requires j < |head| && j + |w| > |head + s| && OccursAt(head + s + rest, w, j)
    ensures Inside(s, w)
  {
    hide Inside;
    var text, p := head + s + rest, |head| - j;
    assert text[j..j + |w|][p..p + |s|] == text[|head|..|head| + |s|];
    InsideAt(s, w, p);
  }

  lemma {:induction false} InsideAt(u: string, v: string, p: nat)
    requires p < |v| && p + |u| < |v| && OccursAt(v, u, p)
    ensures Inside(u, v)
  {
  }

  lemma {:induction false} RunsIntoBy(v: string, u: string, n: nat)
    requires 0 < n < |v| && n < |u| && EndsWith(v, u[..n])
    ensures RunsInto(v, u)
  {
  }

  lemma {:induction false} NothingAcross(w: string, head: string, s: string, rest: string, j: nat)
    requires w != s && |w| >= |s| && !RunsInto(s, w) && !Inside(s, w)
    requires |head| <= j < |head| + |s|
    ensures !OccursAt(head + s + rest, w, j)
  {
    hide Inside, RunsInto;
    var text := head + s + rest;
    assert text[|head|..|head| + |s|] == s;
    if OccursAt(text, w, j) { CrossingRuns(w, head, s, rest, j); }
  }

  lemma {:induction false} CrossingRuns(w: string, head: string, s: string, rest: string, j: nat)
    requires |w| >= |s| && |head| <= j < |head| + |s| && OccursAt(head + s + rest, w, j)
    ensures w == s || Inside(s, w) || RunsInto(s, w)
  {
    hide Inside, RunsInto;
    var text := head + s + rest;
    if j == |head| {
      assert text[j..j + |w|][..|s|] == s;
      if |w| > |s| { InsideAt(s, w, 0); }
    } else {
      var n := |head| + |s| - j;
      assert text[j..j + |w|][..n] == text[j..|head| + |s|] == s[|s| - n..];
      RunsIntoBy(s, w, n);
    }
  }

  lemma {:induction false} LeftmostFirst(order: seq<string>, head: string, s: string, rest: string)
    requires AllApart(order) && s in order && Yields(order, s)
    requires Free(order, head + s, |head|)
    ensures RedactAll(order, head + s + rest) == head + REDACTED_VALUE + RedactAll(order, rest)
    decreases |order|
  {
    hide Replace, OccursAt, Inside, RunsInto, Apart, FindFrom;
    var w, later := order[0], order[1..];
    if w == s {
      LeftmostFront(order, head, s, rest);
      MarkersSeparate(later, head, Redact(s, rest));
      NothingInHead(later, head, s);
    } else {
      assert [w] == order[..1];
      forall j | 0 <= j < |head + s| ensures !OccursAt(head + s + rest, w, j) {
        if j < |head| { NothingEarlier(w, head, s, rest, j); } else { NothingAcross(w, head, s, rest, j); }
      }
      ReplaceAfter(head + s, rest, w, REDACTED_VALUE);
      YieldsLater(order, s);
      LeftmostFirst(later, head, s, Redact(w, rest));
    }
  }

  lemma {:induction false} YieldsLater(order: seq<string>, s: string)
    requires order != [] && order[0] != s && Yields(order, s)
    ensures Yields(order[1..], s)
  {
    hide Inside, RunsInto;
    forall i | 0 <= i < |order[1..]| && s !in order[1..][..i + 1]
      ensures |order[1..][i]| >= |s| && !RunsInto(s, order[1..][i])
    {
      assert order[..i + 2] == [order[0]] + order[1..][..i + 1];
    }
  }

  lemma {:induction false} LeftmostFront(order: seq<string>, head: string, s: string, rest: string)
    requires s in order && s != "" && Yields(order, s) && Free(order, head + s, |head|)
    ensures Redact(s, head + s + rest) == head + REDACTED_VALUE + Redact(s, rest)
  {
    hide Replace, OccursAt, Inside, RunsInto, FindFrom;
    forall j | 0 <= j < |head| ensures !OccursAt(head + s + rest, s, j) {
      NothingEarlier(s, head, s, rest, j);
    }
    assert OccursAt(head + s + rest, s, |head|) by { OccursHere(head, s, rest); }
    FindUnique(head + s + rest, s, |head|);
    RedactHead(s, head, rest);
  }

  lemma {:induction false} OccursHere(head: string, s: string, rest: string)
    ensures OccursAt(head + s + rest, s, |head|)
  {
  }

  lemma {:induction false} NothingInHead(order: seq<string>, head: string, s: string)
    requires AllNonEmpty(order) && Free(order, head + s, |head|)
    ensures RedactAll(order, head) == head
  {
    forall w, j | w in order && 0 <= j < |head| + 1 ensures !OccursAt(head, w, j) {
      if j + |w| <= |head| { OccursExtend(head, s, w, j); }
    }
    Untouched(order, head);
  }

  lemma {:induction false} Leftmost(order: seq<string>, text: string) returns (i: nat, s: string)
    requires AllNonEmpty(order) && !Free(order, text, |text| + 1)
    ensures s in order && OccursAt(text, s, i) && Free(order, text, i)
  {
    var w, j :| w in order && 0 <= j < |text| + 1 && OccursAt(text, w, j);
    i, s := j, w;
    while !Free(order, text, i)
      invariant s in order && OccursAt(text, s, i)
      decreases i
    {
      var v, k :| v in order && 0 <= k < i && OccursAt(text, v, k);
      i, s := k, v;
    }
  }

  // ----- what is held back for several secrets -----

  lemma {:induction false} LargestOf(buffer: string, secret: string, floor: nat)
    requires secret != ""
    ensures LargestHeld(buffer, secret, MaximumHeld(buffer, secret), floor) ==
            if Held(secret, buffer) > floor then Held(secret, buffer) else floor
  {
    LargestAbove(buffer, secret, MaximumHeld(buffer, secret), floor);
  }

  lemma {:induction false} LargestAbove(buffer: string, secret: string, size: nat, floor: nat)
    requires size <= |secret| && size <= |buffer|
    ensures var all := LargestHeld(buffer, secret, size, 0);
            LargestHeld(buffer, secret, size, floor) == if all > floor then all else floor
    decreases size
  {
    if size > 0 && !EndsWith(buffer, secret[..size]) { LargestAbove(buffer, secret, size - 1, floor); }
  }

  /** No secret holds back more than the list does. */
  lemma {:induction false} HeldByCovers(buffer: string, secrets: seq<string>, keep: nat, w: string)
    requires AllNonEmpty(secrets) && keep <= |buffer| && w in secrets && w != ""
    ensures Held(w, buffer) <= HeldBy(buffer, secrets, keep)
    decreases |secrets|
  {
    hide LargestHeld, EndsWith;
    LargestOf(buffer, secrets[0], keep);
    if w != secrets[0] {
      HeldByCovers(buffer, secrets[1..], LargestHeld(buffer, secrets[0], MaximumHeld(buffer, secrets[0]), keep), w);
    }
  }

  /** What is held back depends on each secret's own part only. */
  lemma {:induction false} HeldBySame(a: string, b: string, secrets: seq<string>, keep: nat)
    requires AllNonEmpty(secrets) && keep <= |a| && keep <= |b|
    requires forall w :: w in secrets && w != "" ==> Held(w, a) == Held(w, b)
    ensures HeldBy(a, secrets, keep) == HeldBy(b, secrets, keep)
    decreases |secrets|
  {
    hide LargestHeld, EndsWith;
    if secrets != [] {
      LargestOf(a, secrets[0], keep);
      LargestOf(b, secrets[0], keep);
      HeldBySame(a, b, secrets[1..], LargestHeld(a, secrets[0], MaximumHeld(a, secrets[0]), keep));
    }
  }

  lemma {:induction false} HeldBehindMarker(head: string, tail: string, secrets: seq<string>)
    requires AllApart(secrets)
    ensures HeldBy(head + REDACTED_VALUE + tail, secrets, 0) == HeldBy(tail, secrets, 0)
  {
    hide Apart, SafeSecret, LargestHeld, MaximumHeld, EndsWith;
    forall w | w in secrets && w != "" ensures Held(w, head + REDACTED_VALUE + tail) == Held(w, tail) {
      ApartIsSafe(w);
      HeldAfterMarker(w, head, tail);
    }
    HeldBySame(head + REDACTED_VALUE + tail, tail, secrets, 0);
  }

  // ----- the configuration -----

  /** The secret values in name order and the same values longest first, each of
      them apart from the marker. */
  ghost predicate Configured(order: seq<string>, secrets: seq<string>) {
    && AllApart(order) && AllApart(secrets)
    && (forall w :: w in order <==> w in secrets)
    && (forall i, j :: 0 <= i < j < |order| ==> |order[i]| >= |order[j]|)
  }

  predicate NoneInside(order: seq<string>) {
    forall i, j :: 0 <= i < |order| && 0 <= j < |order| ==> !Inside(order[i], order[j])
  }

  /** No secret lies inside another other than at its end, and none that comes
      earlier in the order starts where one that comes later ends. */
  predicate Untangled(order: seq<string>) {
    && NoneInside(order)
    && (forall i, j :: 0 <= i < |order| && 0 <= j < |order| && order[j] !in order[..i + 1] ==>
          !RunsInto(order[j], order[i]))
  }

  lemma {:induction false} UntangledYields(order: seq<string>, s: string)
    requires Untangled(order) && s in order
    requires forall i, j :: 0 <= i < j < |order| ==> |order[i]| >= |order[j]|
    ensures Yields(order, s)
  {
    hide Inside, RunsInto;
    var k :| 0 <= k < |order| && order[k] == s;
    forall i | 0 <= i < |order| && s !in order[..i + 1]
      ensures |order[i]| >= |s| && !RunsInto(s, order[i])
    {
      Among(order, k, i + 1);
    }
  }

  lemma {:induction false} Among(order: seq<string>, k: nat, n: nat)
    requires k < |order| && n <= |order|
    ensures k < n ==> order[k] in order[..n]
  {
    if k < n { assert order[..n][k] == order[k]; }
  }

  // ----- streaming -----

  /** What one buffer is worth once `more` is known to follow. */
  function ResumedAll(order: seq<string>, secrets: seq<string>, buffer: string, more: string): string
    requires AllNonEmpty(order) && AllNonEmpty(secrets)
  {
    var cut := |buffer| - HeldBy(buffer, secrets, 0);
    buffer[..cut] + RedactAll(order, buffer[cut..] + more)
  }

  lemma {:induction false} ResumedBehindMarker(
    order: seq<string>, secrets: seq<string>, head: string, tail: string, more: string)
    requires AllApart(order) && AllApart(secrets)
    ensures ResumedAll(order, secrets, head + REDACTED_VALUE + tail, more) ==
            head + REDACTED_VALUE + ResumedAll(order, secrets, tail, more)
  {
    hide HeldBy, RedactAll, Apart;
    HeldBehindMarker(head, tail, secrets);
    var front := head + REDACTED_VALUE;
    var cut := |tail| - HeldBy(tail, secrets, 0);
    TakeDrop(front, tail, cut, 0);
    Assoc3(front, tail[..cut], RedactAll(order, tail[cut..] + more));
  }

  /** In a text without a secret no occurrence begins before the held part. */
  lemma {:induction false} FreeBeforeHeld(order: seq<string>, secrets: seq<string>, text: string, more: string)
    requires Configured(order, secrets) && Free(order, text, |text| + 1)
    ensures Free(order, text + more, |text| - HeldBy(text, secrets, 0))
  {
    hide Apart, HeldBy, FindFrom, LargestHeld, MaximumHeld, OccursAt;
    forall w, j | w in order && 0 <= j < |text| - HeldBy(text, secrets, 0) ensures !OccursAt(text + more, w, j) {
      assert w in secrets && w != "";
      FreeFindsNone(order, text, w);
      HeldByCovers(text, secrets, 0, w);
      NoMatchBeforeHeld(w, text, more, j);
    }
  }

  lemma {:induction false} ResumeFree(order: seq<string>, secrets: seq<string>, text: string, more: string)
    requires Configured(order, secrets) && Free(order, text, |text| + 1)
    ensures RedactAll(order, text + more) == ResumedAll(order, secrets, text, more)
  {
    hide Apart, HeldBy, RedactAll, OccursAt;
    FreeBeforeHeld(order, secrets, text, more);
    var cut := |text| - HeldBy(text, secrets, 0);
    assert text + more == text[..cut] + (text[cut..] + more);
    KeepsHead(order, text[..cut], text[cut..] + more);
  }

  lemma {:induction false} FreeFront(order: seq<string>, head: string, rest: string, n: nat)
    requires Free(order, head + rest, n)
    ensures Free(order, head, n)
  {
    forall w, j | w in order && 0 <= j < n ensures !OccursAt(head, w, j) {
      if j + |w| <= |head| { OccursExtend(head, rest, w, j); }
    }
  }

  /** Redacting a text and holding back its end loses nothing. */
  lemma {:induction false} ResumeAll(order: seq<string>, secrets: seq<string>, raw: string, more: string)
    requires Configured(order, secrets) && Untangled(order)
    ensures RedactAll(order, raw + more) == ResumedAll(order, secrets, RedactAll(order, raw), more)
    decreases |raw|
  {
    hide Apart, HeldBy, RedactAll, OccursAt, Free, Inside, RunsInto, ResumedAll, Yields, Untangled;
    if Free(order, raw, |raw| + 1) {
      Untouched(order, raw);
      ResumeFree(order, secrets, raw, more);
    } else {
      var i, s := Leftmost(order, raw);
      var head, rest := SplitOccurrence(order, raw, i, s);
      UntangledYields(order, s);
      LeftmostFirst(order, head, s, rest);
      LeftmostFirst(order, head, s, rest + more);
      Assoc3(head + s, rest, more);
      ResumeAll(order, secrets, rest, more);
      ResumedBehindMarker(order, secrets, head, RedactAll(order, rest), more);
    }
  }

  lemma {:induction false} SplitOccurrence(order: seq<string>, raw: string, i: nat, s: string)
    returns (head: string, rest: string)
    requires OccursAt(raw, s, i) && Free(order, raw, i)
    ensures raw == head + s + rest && |head| == i
    ensures Free(order, head + s, |head|)
    ensures s != "" ==> |rest| < |raw|
  {
    hide Free;
    head, rest := raw[..i], raw[i + |s|..];
    assert raw == head + s + rest;
    FreeFront(order, head + s, rest, i);
  }

  /** The held tail of everything is the held tail of the last buffer. */
  lemma {:induction false} HeldIsLocalAll(
    order: seq<string>, secrets: seq<string>, shown: string, pending: string, text: string)
    requires Configured(order, secrets) && Untangled(order)
    requires HeldBy(shown + pending, secrets, 0) == |pending|
    ensures HeldBy(shown + RedactAll(order, pending + text), secrets, 0) ==
            HeldBy(RedactAll(order, pending + text), secrets, 0)
  {
    hide Apart, RedactAll, OccursAt, Free, Inside, RunsInto, Yields, Untangled, HeldBy, LargestHeld, MaximumHeld,
         EndsWith;
    var raw := pending + text;
    if Free(order, raw, |raw| + 1) {
      Untouched(order, raw);
      forall w | w in secrets && w != "" ensures Held(w, shown + raw) == Held(w, raw) {
        HeldByCovers(shown + pending, secrets, 0, w);
        HeldIsLocalRaw(w, shown, pending, text);
      }
      HeldBySame(shown + raw, raw, secrets, 0);
    } else {
      var i, s := Leftmost(order, raw);
      var head, rest := SplitOccurrence(order, raw, i, s);
      UntangledYields(order, s);
      LeftmostFirst(order, head, s, rest);
      var tail := RedactAll(order, rest);
      HeldBehindMarker(head, tail, secrets);
      HeldBehindMarker(shown + head, tail, secrets);
      Assoc4(shown, head, REDACTED_VALUE, tail);
    }
  }

  /** `flow` is the redaction of `text`, split where the held part begins. */
  ghost predicate SplitsAll(order: seq<string>, secrets: seq<string>, flow: Flow, text: string)
    requires AllNonEmpty(order) && AllNonEmpty(secrets)
  {
    var whole := RedactAll(order, text);
    flow.shown + flow.pending == whole && |flow.pending| == HeldBy(whole, secrets, 0)
  }

  lemma {:induction false} SplitAllResumes(
    order: seq<string>, secrets: seq<string>, flow: Flow, text: string, more: string)
    requires Configured(order, secrets) && Untangled(order) && SplitsAll(order, secrets, flow, text)
    ensures RedactAll(order, text + more) == flow.shown + RedactAll(order, flow.pending + more)
  {
    hide Apart, RedactAll, HeldBy, Untangled;
    ResumeAll(order, secrets, text, more);
    var whole := RedactAll(order, text);
    var cut := |whole| - |flow.pending|;
    assert whole[..cut] == flow.shown && whole[cut..] == flow.pending;
  }

  lemma {:induction false} PublishSplits(
    order: seq<string>, secrets: seq<string>, flow: Flow, text: string, more: string)
    requires Configured(order, secrets) && Untangled(order) && SplitsAll(order, secrets, flow, text)
    ensures var now := Publish(order, secrets, flow.pending, more, false);
            SplitsAll(order, secrets, Flow(flow.shown + now.shown, now.pending), text + more)
  {
    hide Apart, RedactAll, HeldBy, Untangled;
    SplitAllResumes(order, secrets, flow, text, more);
    HeldIsLocalAll(order, secrets, flow.shown, flow.pending, more);
    var now := Publish(order, secrets, flow.pending, more, false);
    var buffer := RedactAll(order, flow.pending + more);
    TakeAndDrop(buffer, |now.shown|);
    Assoc3(flow.shown, now.shown, now.pending);
  }

  /** While nothing completes, shown and pending are the two parts of the redaction
      of everything received. */
  lemma {:induction false} OpenRunAll(order: seq<string>, secrets: seq<string>, es: seq<Emission>)
    requires Configured(order, secrets) && Untangled(order)
    requires forall i :: 0 <= i < |es| ==> !Completes(es[i])
    ensures SplitsAll(order, secrets, PublishAll(order, secrets, es), Passed(es))
    decreases |es|
  {
    hide Apart, Publish, RedactAll, HeldBy, Untangled;
    if es == [] {
      EmptySplitsAll(order, secrets);
    } else {
      var init, last := es[..|es| - 1], es[|es| - 1];
      OpenRunAll(order, secrets, init);
      match last {
        case Silent => assert Passed(init) + "" == Passed(init);
        case Emit(text, completed, _) =>
          PublishSplits(order, secrets, PublishAll(order, secrets, init), Passed(init), text);
      }
    }
  }

  lemma {:induction false} EmptySplitsAll(order: seq<string>, secrets: seq<string>)
    requires AllNonEmpty(order) && AllNonEmpty(secrets)
    ensures SplitsAll(order, secrets, Flow("", ""), "")
  {
    hide HeldBy;
    Untouched(order, "");
  }

  lemma {:induction false} ClosedRunAll(order: seq<string>, secrets: seq<string>, es: seq<Emission>)
    requires Configured(order, secrets) && Untangled(order) && EndsAtCompletion(es) && Complete(es)
    ensures PublishAll(order, secrets, es).shown == RedactAll(order, Passed(es))
  {
    hide Apart, RedactAll, HeldBy, Untangled;
    var init, last := es[..|es| - 1], es[|es| - 1];
    OpenRunAll(order, secrets, init);
    SplitAllResumes(order, secrets, PublishAll(order, secrets, init), Passed(init), last.text);
  }

  // ----- and the condition is necessary -----

  lemma {:induction false} TwoEmissions(order: seq<string>, secrets: seq<string>, first: string, second: string)
    requires AllNonEmpty(order) && AllNonEmpty(secrets)
    ensures var es := Cut(first, second);
            && EndsAtCompletion(es) && Complete(es) && Passed(es) == first + second
            && PublishAll(order, secrets, es).shown == ResumedAll(order, secrets, RedactAll(order, first), second)
  {
    hide Publish, PublishAll, AfterEmission, ResumedAll, RedactAll;
    var a, b := Emit(first, false, false), Emit(second, true, false);
    var es := [a, b];
    assert es[..1] == [a] && [a][..0] == [];
    assert "" + first == first;
    assert Passed([a]) == Passed([]) + first;
    TwoPublished(order, secrets, first, second);
  }

  lemma {:induction false} TwoPublished(order: seq<string>, secrets: seq<string>, first: string, second: string)
    requires AllNonEmpty(order) && AllNonEmpty(secrets)
    ensures PublishAll(order, secrets, Cut(first, second)).shown ==
            ResumedAll(order, secrets, RedactAll(order, first), second)
  {
    hide RedactAll, HeldBy;
    var a, b := Emit(first, false, false), Emit(second, true, false);
    assert [a, b][..1] == [a] && [a][..0] == [];
    assert "" + first == first;
    assert PublishAll(order, secrets, []) == Flow("", "");
    var now := Publish(order, secrets, "", first, false);
    assert PublishAll(order, secrets, [a]) == Flow("" + now.shown, now.pending);
  }

  lemma {:induction false} LongerElsewhere(w: string, v: string)
    requires |w| >= |v| && w != v
    ensures Find(v, w) == -1
  {
    hide FindFrom;
    assert v[0..|v|] == v;
    forall j | 0 <= j ensures !OccursAt(v, w, j) { }
    FindUnique(v, w, -1);
  }

  lemma {:induction false} RedactAllEmpty(order: seq<string>)
    requires AllNonEmpty(order)
    ensures RedactAll(order, "") == ""
  {
    Untouched(order, "");
  }

  /** A secret alone becomes one marker. */
  lemma {:induction false} SecretAlone(order: seq<string>, v: string)
    requires AllApart(order) && v in order
    requires forall i, j :: 0 <= i < j < |order| ==> |order[i]| >= |order[j]|
    ensures RedactAll(order, v) == REDACTED_VALUE
    decreases |order|
  {
    hide Replace, FindFrom, Apart;
    var w, later := order[0], order[1..];
    if w == v {
      RedactSecret(v);
      MarkersSeparate(later, "", "");
      RedactAllEmpty(later);
      assert "" + REDACTED_VALUE + "" == REDACTED_VALUE;
    } else {
      var k :| 0 <= k < |order| && order[k] == v;
      assert later[k - 1] == v;
      LongerElsewhere(w, v);
      ReplaceMiss(v, w, REDACTED_VALUE);
      SecretAlone(later, v);
    }
  }

  lemma {:induction false} RedactAllNonEmpty(order: seq<string>, text: string)
    requires AllNonEmpty(order) && text != ""
    ensures RedactAll(order, text) != ""
    decreases |order|
  {
    hide FindFrom;
    if order != [] { RedactAllNonEmpty(order[1..], Redact(order[0], text)); }
  }

  /** The first secret of the order that occurs puts its marker at its first
      occurrence, and what is in front of it is redacted by the later ones alone. */
  lemma {:induction false} FirstHit(order: seq<string>, text: string, u: string)
      returns (m: nat, p: nat, behind: string)
    requires AllApart(order) && u in order && Find(text, u) != -1
    ensures m < |order| && u !in order[..m]
    ensures p == Find(text, order[m])
    ensures RedactAll(order, text) == RedactAll(order[m + 1..], text[..p]) + REDACTED_VALUE + behind
    decreases |order|
  {
    hide Replace, FindFrom, Apart, Find;
    var w, later := order[0], order[1..];
    if Find(text, w) != -1 {
      m, p := 0, Find(text, w);
      ReplaceHit(text, w, REDACTED_VALUE, p);
      var rest := Redact(w, text[p + |w|..]);
      MarkersSeparate(later, text[..p], rest);
      behind := RedactAll(later, rest);
    } else {
      ReplaceMiss(text, w, REDACTED_VALUE);
      m, p, behind := FirstHit(later, text, u);
      assert order[..m + 1] == [w] + later[..m];
      assert order[m + 2..] == later[m + 1..];
      m := m + 1;
    }
  }

  ghost predicate CutsDiffer(order: seq<string>, secrets: seq<string>, es: seq<Emission>)
    requires AllNonEmpty(order) && AllNonEmpty(secrets)
  {
    EndsAtCompletion(es) && Complete(es) && PublishAll(order, secrets, es).shown != RedactAll(order, Passed(es))
  }

  lemma {:induction false} OccursFound(text: string, pat: string, j: nat)
    requires OccursAt(text, pat, j)
    ensures Find(text, pat) != -1
  {
    hide FindFrom;
    FindIsFirst(text, pat);
  }

  /** A secret inside another: cut the longer one behind the shorter one. */
  lemma {:induction false} InsideDepends(order: seq<string>, secrets: seq<string>, u: string, v: string)
    returns (first: string, second: string)
    requires Configured(order, secrets) && u in order && v in order && Inside(u, v)
    ensures CutsDiffer(order, secrets, Cut(first, second))
    ensures first != "" && OfSecrets(order, first + second)
  {
    hide Apart, HeldBy, RedactAll, FindFrom, PublishAll, ResumedAll;
    var p :| 0 <= p < |v| && p + |u| < |v| && OccursAt(v, u, p);
    first, second := v[..p + |u|], v[p + |u|..];
    assert first + second == v;
    TwoEmissions(order, secrets, first, second);
    SecretAlone(order, v);
    OccursExtend(first, second, u, p);
    OccursFound(first, u, p);
    var m, at, behind := FirstHit(order, first, u);
    var head := RedactAll(order[m + 1..], first[..at]);
    ResumedBehindMarker(order, secrets, head, behind, second);
    ResumedNonEmpty(order, secrets, behind, second);
  }

  /** One delta, and a second that completes. */
  function Cut(first: string, second: string): seq<Emission> {
    [Emit(first, false, false), Emit(second, true, false)]
  }

  /** A text without any character that no secret has. */
  ghost predicate OfSecrets(order: seq<string>, text: string) {
    forall c :: c in text ==> exists w :: w in order && c in w
  }

  lemma {:induction false} ResumedNonEmpty(order: seq<string>, secrets: seq<string>, buffer: string, more: string)
    requires AllNonEmpty(order) && AllNonEmpty(secrets) && more != ""
    ensures ResumedAll(order, secrets, buffer, more) != ""
  {
    hide RedactAll, HeldBy;
    var cut := |buffer| - HeldBy(buffer, secrets, 0);
    RedactAllNonEmpty(order, buffer[cut..] + more);
  }

  lemma {:induction false} NotAMarkerFirst(v: string, front: string, behind: string, other: string)
    requires Apart(v) && 0 < |front| < |v| && front == v[..|front|]
    ensures front + REDACTED_VALUE + behind != REDACTED_VALUE + other
  {
    var left, right := front + REDACTED_VALUE + behind, REDACTED_VALUE + other;
    if |front| < |REDACTED_VALUE| {
      assert left[|front|] == '<' && right[|front|] == REDACTED_VALUE[|front|] != '<';
    } else {
      assert Clashes(v, 0);
      var k :| 0 <= k < |v| && 0 <= 0 + k < |REDACTED_VALUE| && v[k] != REDACTED_VALUE[0 + k];
      assert left[k] == v[k] && right[k] == REDACTED_VALUE[k];
    }
  }

  /** Where the leading secret of an overlap is, in the text a + u with v = a + u[..n]. */
  lemma {:induction false} OverlapHit(order: seq<string>, i: nat, k: nat, n: nat, m: nat, p: nat)
    requires i < |order| && k < |order| && m <= i && order[k] !in order[..i + 1]
    requires forall i, j :: 0 <= i < j < |order| ==> |order[i]| >= |order[j]|
    requires !Inside(order[k], order[m])
    requires 0 < n < |order[k]| && n < |order[i]| && EndsWith(order[k], order[i][..n])
    requires OccursAt(order[k][..|order[k]| - n] + order[i], order[m], p)
    ensures 0 < p <= |order[k]| - n
  {
    hide Inside;
    var u, v, w := order[i], order[k], order[m];
    Among(order, k, i + 1);
    Among(order, m, i + 1);
    assert |w| >= |u| >= |v|;
    var text := v[..|v| - n] + u;
    assert v == v[..|v| - n] + u[..n];
    assert text[..|v|] == v;
    if p == 0 { StartsInside(text, v, w); }
  }

  /** The whole text: a secret is replaced that begins after the start of v. */
  lemma {:induction false} OverlapWhole(order: seq<string>, i: nat, k: nat, n: nat)
    returns (p: nat, behind: string)
    requires AllApart(order) && NoneInside(order)
    requires forall i, j :: 0 <= i < j < |order| ==> |order[i]| >= |order[j]|
    requires i < |order| && k < |order| && order[k] !in order[..i + 1]
    requires 0 < n < |order[k]| && n < |order[i]| && EndsWith(order[k], order[i][..n])
    ensures 0 < p < |order[k]|
    ensures RedactAll(order, order[k] + order[i][n..]) == order[k][..p] + REDACTED_VALUE + behind
  {
    hide Apart, RedactAll, FindFrom, Find, Inside, EndsWith, OccursAt, Free;
    var u, v := order[i], order[k];
    var text := v[..|v| - n] + u;
    Glue(u, v, n);
    OccursHere(v[..|v| - n], u, "");
    assert v[..|v| - n] + u + "" == text;
    OccursFound(text, u, |v| - n);
    var m;
    m, p, behind := FirstHit(order, text, u);
    Among(order, i, m);
    FindIsFirst(text, order[m]);
    OverlapHit(order, i, k, n, m, p);
    assert text[..p] == v[..p];
    FrontIsFree(order, v, p);
    LaterFree(order, m + 1, v[..p]);
    Untouched(order[m + 1..], v[..p]);
  }

  lemma {:induction false} LaterFree(order: seq<string>, m: nat, text: string)
    requires m <= |order| && Free(order, text, |text| + 1)
    ensures Free(order[m..], text, |text| + 1)
  {
    hide OccursAt;
  }

  /** A later secret that runs into an earlier one: cut behind the later one, it
      is replaced. */
  lemma {:induction false} OverlapDepends(order: seq<string>, secrets: seq<string>, i: nat, k: nat)
    returns (first: string, second: string)
    requires Configured(order, secrets) && NoneInside(order)
    requires i < |order| && k < |order| && order[k] !in order[..i + 1] && RunsInto(order[k], order[i])
    ensures CutsDiffer(order, secrets, Cut(first, second))
    ensures first != "" && OfSecrets(order, first + second)
  {
    hide Apart, HeldBy, RedactAll, PublishAll, ResumedAll, NoneInside, EndsWith, EndsAtCompletion, Complete, Passed;
    var u, v := order[i], order[k];
    var n :| 0 < n < |v| && n < |u| && EndsWith(v, u[..n]);
    first, second := v, u[n..];
    TwoEmissions(order, secrets, v, second);
    SecretAlone(order, v);
    assert "" + REDACTED_VALUE + "" == REDACTED_VALUE;
    ResumedBehindMarker(order, secrets, "", "", second);
    var p, behind := OverlapWhole(order, i, k, n);
    NotAMarkerFirst(v, v[..p], behind, ResumedAll(order, secrets, "", second));
    assert forall c :: c in u[n..] ==> c in u;
  }

  lemma {:induction false} StartsInside(text: string, v: string, w: string)
    requires |v| <= |text| && text[..|v|] == v && |w| >= |v| && OccursAt(text, w, 0)
    ensures w == v || Inside(v, w)
  {
    hide Inside;
    assert text[0..|w|][..|v|] == v;
    if |w| > |v| { InsideAt(v, w, 0); }
  }

  lemma {:induction false} Glue(u: string, v: string, n: nat)
    requires n <= |u| && EndsWith(v, u[..n])
    ensures v + u[n..] == v[..|v| - n] + u
  {
    assert v == v[..|v| - n] + u[..n];
  }

  lemma {:induction false} FrontIsFree(order: seq<string>, v: string, p: nat)
    requires NoneInside(order) && v in order && p < |v|
    ensures Free(order, v[..p], p + 1)
  {
    hide Inside;
    forall w, j | w in order && 0 <= j < p + 1 ensures !OccursAt(v[..p], w, j) {
      if OccursAt(v[..p], w, j) {
        assert v[..p] + v[p..] == v;
        OccursExtend(v[..p], v[p..], w, j);
        InsideAt(w, v, j);
      }
    }
  }

  /** For secrets apart from the marker, streaming shows what redacting the whole
      text shows, for every cutting of every text, exactly when they are untangled. */
  lemma {:induction false} ListStreamsExactly(order: seq<string>, secrets: seq<string>)
    requires Configured(order, secrets)
    ensures Untangled(order) <==> forall es :: !CutsDiffer(order, secrets, es)
  {
    hide Apart, RedactAll, PublishAll, Inside, RunsInto, EndsAtCompletion, Complete;
    if Untangled(order) {
      forall es | EndsAtCompletion(es) && Complete(es)
        ensures PublishAll(order, secrets, es).shown == RedactAll(order, Passed(es))
      {
        ClosedRunAll(order, secrets, es);
      }
    } else {
      var first, second := TangledDepends(order, secrets);
    }
  }

  lemma {:induction false} TangledDepends(order: seq<string>, secrets: seq<string>)
    returns (first: string, second: string)
    requires Configured(order, secrets) && !Untangled(order)
    ensures CutsDiffer(order, secrets, Cut(first, second))
    ensures first != "" && OfSecrets(order, first + second)
  {
    hide Apart, RedactAll, PublishAll, Inside, RunsInto, EndsAtCompletion, Complete, OfSecrets, CutsDiffer;
    if i, j :| 0 <= i < |order| && 0 <= j < |order| && Inside(order[i], order[j]) {
      first, second := InsideDepends(order, secrets, order[i], order[j]);
    } else {
      var i, k :| 0 <= i < |order| && 0 <= k < |order| && order[k] !in order[..i + 1] && RunsInto(order[k], order[i]);
      first, second := OverlapDepends(order, secrets, i, k);
    }
  }

  /** One secret that is a prefix of another is such a case. */
  lemma {:induction false} PrefixSecretsDependOnCutting()
    ensures Configured(["xyz", "xy"], ["xy", "xyz"]) && !Untangled(["xyz", "xy"])
  {
    hide FindFrom, Apart;
    FindAbsent(REDACTED_VALUE, "xy");
    FindAbsent(REDACTED_VALUE, "xyz");
    NoAngleIsApart("xy");
    NoAngleIsApart("xyz");
    var order := ["xyz", "xy"];
    InsideAt(order[1], order[0], 0);
  }

  // ----- no secret is left -----

  /** Replacing w, another secret apart from the marker does not come into the text. */
  lemma {:induction false} StaysAway(w: string, text: string, v: string, j: nat)
    requires w != "" && v != "" && Apart(v)
    requires forall i :: 0 <= i <= |text| ==> !OccursAt(text, v, i)
    ensures !OccursAt(Redact(w, text), v, j)
    decreases |text|
  {
    hide FindFrom, Replace, Apart, OccursAt;
    var i := Find(text, w);
    if i == -1 {
      ReplaceMiss(text, w, REDACTED_VALUE);
      OccursInside(text, v, j);
    } else {
      ReplaceHit(text, w, REDACTED_VALUE, i);
      var head, rest := text[..i], text[i + |w|..];
      AwayInPart(text, v, 0, i);
      AwayInPart(text, v, i + |w|, |text|);
      assert text[0..i] == head && text[i + |w|..|text|] == rest;
      if OccursAt(head + REDACTED_VALUE + Redact(w, rest), v, j) {
        Aside(v, head, Redact(w, rest), j);
        if j + |v| <= |head| {
          Assoc3(head, REDACTED_VALUE, Redact(w, rest));
          OccursExtend(head, REDACTED_VALUE + Redact(w, rest), v, j);
        } else {
          var k := j - |head + REDACTED_VALUE|;
          OccursShift(head + REDACTED_VALUE, Redact(w, rest), v, k);
          StaysAway(w, rest, v, k);
        }
      }
    }
  }

  lemma {:induction false} OccursInside(text: string, v: string, j: nat)
    ensures OccursAt(text, v, j) ==> j <= |text|
  {
  }

  lemma {:induction false} AwayInPart(text: string, v: string, a: nat, b: nat)
    requires a <= b <= |text| && forall i :: 0 <= i <= |text| ==> !OccursAt(text, v, i)
    ensures forall i: nat :: !OccursAt(text[a..b], v, i)
  {
    forall i: nat ensures !OccursAt(text[a..b], v, i) { PartOccurs(text, v, a, b, i); }
  }

  lemma {:induction false} PartOccurs(text: string, v: string, a: nat, b: nat, i: nat)
    requires a <= b <= |text|
    ensures OccursAt(text[a..b], v, i) ==> a + i <= |text| && OccursAt(text, v, a + i)
  {
    hide OccursAt;
    var part, rest := text[a..b], text[b..];
    OccursInside(part, v, i);
    FrontHasNone(part, rest, v, i);
    OccursShift(text[..a], part + rest, v, i);
    assert text == text[..a] + (part + rest);
  }

  /** A secret apart from the marker is gone once it has been replaced. */
  lemma {:induction false} GoneOnceReplaced(w: string, text: string, j: nat)
    requires w != "" && Apart(w)
    ensures !OccursAt(Redact(w, text), w, j)
    decreases |text|
  {
    hide FindFrom, Replace, Apart, OccursAt;
    var i := Find(text, w);
    FindIsFirst(text, w);
    if i == -1 {
      ReplaceMiss(text, w, REDACTED_VALUE);
    } else {
      ReplaceHit(text, w, REDACTED_VALUE, i);
      var head, rest := text[..i], text[i + |w|..];
      if OccursAt(head + REDACTED_VALUE + Redact(w, rest), w, j) {
        Aside(w, head, Redact(w, rest), j);
        if j + |w| <= |head| {
          Assoc3(head, REDACTED_VALUE, Redact(w, rest));
          OccursExtend(head, REDACTED_VALUE + Redact(w, rest), w, j);
          assert head + text[i..] == text;
          OccursExtend(head, text[i..], w, j);
        } else {
          var k := j - |head + REDACTED_VALUE|;
          OccursShift(head + REDACTED_VALUE, Redact(w, rest), w, k);
          GoneOnceReplaced(w, rest, k);
        }
      }
    }
  }

  lemma {:induction false} AwayAfterAll(order: seq<string>, text: string, v: string, j: nat)
    requires AllApart(order) && v != "" && Apart(v)
    requires forall i :: 0 <= i <= |text| ==> !OccursAt(text, v, i)
    ensures !OccursAt(RedactAll(order, text), v, j)
    decreases |order|
  {
    hide Replace, Apart, OccursAt;
    if order == [] {
      OccursInside(text, v, j);
    } else {
      var next := Redact(order[0], text);
      forall i | 0 <= i <= |next| ensures !OccursAt(next, v, i) { StaysAway(order[0], text, v, i); }
      AwayAfterAll(order[1..], next, v, j);
    }
  }

  /** Whatever the text, its redaction holds no secret anywhere. */
  lemma {:induction false} NothingLeaks(order: seq<string>, text: string, w: string, j: nat)
    requires AllApart(order) && w in order
    ensures !OccursAt(RedactAll(order, text), w, j)
    decreases |order|
  {
    hide Replace, Apart, OccursAt;
    var v, later := order[0], order[1..];
    var next := Redact(v, text);
    if w == v {
      forall i | 0 <= i <= |next| ensures !OccursAt(next, w, i) { GoneOnceReplaced(w, text, i); }
      AwayAfterAll(later, next, w, j);
    } else {
      NothingLeaks(later, next, w, j);
    }
  }

  /** So at no moment does the shown part of a stream hold a secret. */
  lemma {:induction false} NothingLeaksStreaming(order: seq<string>, secrets: seq<string>, es: seq<Emission>,
      w: string, j: nat)
    requires Configured(order, secrets) && Untangled(order) && w in order && EndsAtCompletion(es)
    ensures !OccursAt(PublishAll(order, secrets, es).shown, w, j)
  {
    hide Apart, RedactAll, HeldBy, Untangled, OccursAt, PublishAll;
    if Complete(es) {
      ClosedRunAll(order, secrets, es);
      NothingLeaks(order, Passed(es), w, j);
    } else {
      forall i | 0 <= i < |es| ensures !Completes(es[i]) { }
      OpenRunAll(order, secrets, es);
      var flow := PublishAll(order, secrets, es);
      NothingLeaks(order, Passed(es), w, j);
      FrontHasNone(flow.shown, flow.pending, w, j);
    }
  }

  lemma {:induction false} FrontHasNone(front: string, back: string, w: string, j: nat)
    ensures OccursAt(front, w, j) ==> OccursAt(front + back, w, j)
  {
    if OccursAt(front, w, j) { OccursExtend(front, back, w, j); }
  }
}
