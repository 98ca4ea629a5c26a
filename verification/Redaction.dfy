/** Secret redaction: the whole-text form of pico/security.py and the holding-back
    rule the streaming form of threadforge_worker/runtime.py adds to it. */
module Redaction {
  import opened Text

  const REDACTED_VALUE := "<redacted>"

  /** `redact_text` for one secret. */
  function Redact(secret: string, text: string): string
    requires secret != ""
  {
    Replace(text, secret, REDACTED_VALUE)
  }

  predicate AllNonEmpty(secrets: seq<string>) {
    forall i :: 0 <= i < |secrets| ==> secrets[i] != ""
  }

  /** `redact_text` for a list of secrets, already ordered longest first. */
  function RedactAll(secrets: seq<string>, text: string): string
    requires AllNonEmpty(secrets)
    decreases |secrets|
  {
    if secrets == [] then text else RedactAll(secrets[1..], Redact(secrets[0], text))
  }

  /** The inner loop over `size`: the largest size in (floor, size] for which the
      buffer ends with that prefix of the secret; `floor` when there is none. */
  function LargestHeld(buffer: string, secret: string, size: nat, floor: nat): (keep: nat)
    requires size <= |secret| && size <= |buffer|
    ensures keep == floor || (floor < keep <= size && EndsWith(buffer, secret[..keep]))
    ensures forall k :: floor < k <= size && EndsWith(buffer, secret[..k]) ==> k <= keep
  {
    if size <= floor then floor
    else if EndsWith(buffer, secret[..size]) then size
    else LargestHeld(buffer, secret, size - 1, floor)
  }

  function MaximumHeld(buffer: string, secret: string): nat
    requires secret != ""
  {
    if |secret| - 1 <= |buffer| then |secret| - 1 else |buffer|
  }

  /** The outer loop over the secrets: how many trailing characters are held back. */
  function HeldBy(buffer: string, secrets: seq<string>, keep: nat): (r: nat)
    requires AllNonEmpty(secrets) && keep <= |buffer|
    ensures keep <= r <= |buffer|
    decreases |secrets|
  {
    if secrets == [] then keep
    else HeldBy(buffer, secrets[1..], LargestHeld(buffer, secrets[0], MaximumHeld(buffer, secrets[0]), keep))
  }

  /** How much of `buffer` is held back for a single secret. */
  function Held(secret: string, buffer: string): (keep: nat)
    requires secret != ""
    ensures keep <= |buffer| && keep < |secret| && EndsWith(buffer, secret[..keep])
    ensures forall k :: 0 < k < |secret| && EndsWith(buffer, secret[..k]) ==> k <= keep
  {
    LargestHeld(buffer, secret, MaximumHeld(buffer, secret), 0)
  }

  lemma {:induction false} HeldBySingle(secret: string, buffer: string)
    requires secret != ""
    ensures HeldBy(buffer, [secret], 0) == Held(secret, buffer)
  {
    assert [secret][1..] == [];
  }

  lemma {:induction false} RedactAllSingle(secret: string, text: string)
    requires secret != ""
    ensures RedactAll([secret], text) == Redact(secret, text)
  {
    assert [secret][1..] == [];
  }

  lemma {:induction false} HeldIs(secret: string, buffer: string, k: nat)
    requires secret != "" && k < |secret| && EndsWith(buffer, secret[..k])
    requires forall m :: k < m < |secret| ==> !EndsWith(buffer, secret[..m])
    ensures Held(secret, buffer) == k
  {
  }

  // ----- one streaming pass -----

  /** The pending text and the output of a run of non-final deltas. */
  datatype Flow = Flow(shown: string, pending: string)

  /** One `_emit_public_delta(text, completed=False)`. */
  function Push(secret: string, pending: string, text: string): Flow
    requires secret != ""
  {
    var buffer := Redact(secret, pending + text);
    var keep := Held(secret, buffer);
    Flow(buffer[..|buffer| - keep], buffer[|buffer| - keep..])
  }

  /** All deltas, none of them completing. */
  function PushAll(secret: string, texts: seq<string>): Flow
    requires secret != ""
    decreases |texts|
  {
    if texts == [] then Flow("", "")
    else
      var before := PushAll(secret, texts[..|texts| - 1]);
      var now := Push(secret, before.pending, texts[|texts| - 1]);
      Flow(before.shown + now.shown, now.pending)
  }

  /** All deltas, the last one completing: what reaches the reader. */
  function Streamed(secret: string, texts: seq<string>): string
    requires secret != "" && texts != []
  {
    var before := PushAll(secret, texts[..|texts| - 1]);
    before.shown + Redact(secret, before.pending + texts[|texts| - 1])
  }

  /** The secrets for which no replacement marker can run into a held prefix. */
  predicate SafeSecret(secret: string) {
    forall k :: 0 < k < |secret| ==>
      !EndsWith(REDACTED_VALUE, secret[..k]) && !EndsWith(secret[..k], REDACTED_VALUE)
  }

  lemma {:induction false} EndsWithLast(text: string, x: string)
    requires x != ""
    ensures EndsWith(text, x) ==> text[|text| - 1] == x[|x| - 1]
  {
    if |x| <= |text| { assert text[|text| - |x|..][|x| - 1] == text[|text| - 1]; }
  }

  lemma {:induction false} NoAngleIsSafe(secret: string)
    requires '>' !in secret
    ensures SafeSecret(secret)
  {
    forall k | 0 < k < |secret|
      ensures !EndsWith(REDACTED_VALUE, secret[..k]) && !EndsWith(secret[..k], REDACTED_VALUE)
    {
      assert secret[k - 1] != '>';
      EndsWithLast(REDACTED_VALUE, secret[..k]);
      EndsWithLast(secret[..k], REDACTED_VALUE);
    }
  }

  lemma {:induction false} ReplaceNone(text: string, pat: string, with: string)
    requires pat != "" && |text| < |pat|
    ensures Replace(text, pat, with) == text
  {
  }

  /** A text is cut, for replacing, at any point no match straddles or precedes. */
  lemma {:induction false} ReplaceAfter(head: string, tail: string, pat: string, with: string)
    requires pat != ""
    requires forall j :: 0 <= j < |head| ==> !OccursAt(head + tail, pat, j)
    ensures Replace(head + tail, pat, with) == head + Replace(tail, pat, with)
  {
    hide FindFrom;
    FindDrop(head, tail, pat);
    var i := Find(tail, pat);
    if i != -1 {
      TakeDrop(head, tail, i, |pat|);
      Assoc4(head, tail[..i], with, Replace(tail[i + |pat|..], pat, with));
    }
  }

  lemma {:induction false} RedactHead(secret: string, head: string, tail: string)
    requires secret != "" && Find(head + secret + tail, secret) == |head|
    ensures Redact(secret, head + secret + tail) == head + REDACTED_VALUE + Redact(secret, tail)
  {
    hide FindFrom;
    var text := head + secret + tail;
    assert text[..|head|] == head;
    assert text[|head| + |secret|..] == tail;
  }

  // ----- holding back and replacing commute with appending -----

  /** A match that starts before the held part of a match-free text is impossible. */
  lemma {:induction false} NoMatchBeforeHeld(secret: string, text: string, more: string, j: nat)
    requires secret != "" && Find(text, secret) == -1
    requires j < |text| - Held(secret, text)
    ensures !OccursAt(text + more, secret, j)
  {
    FindIsFirst(text, secret);
    if j + |secret| <= |text| {
      OccursExtend(text, more, secret, j);
    } else {
      var k := |text| - j;
      assert !EndsWith(text, secret[..k]);
      if |secret| <= |text + more| - j {
        assert (text + more)[j..j + |secret|][..k] == text[j..];
      }
    }
  }

  lemma {:induction false} UnheldIsFinal(secret: string, text: string, more: string)
    requires secret != "" && Find(text, secret) == -1
    ensures var cut := |text| - Held(secret, text);
            Redact(secret, text + more) == text[..cut] + Redact(secret, text[cut..] + more)
  {
    hide FindFrom;
    var cut := |text| - Held(secret, text);
    assert text + more == text[..cut] + (text[cut..] + more);
    forall j | 0 <= j < cut ensures !OccursAt(text[..cut] + (text[cut..] + more), secret, j) {
      NoMatchBeforeHeld(secret, text, more, j);
    }
    ReplaceAfter(text[..cut], text[cut..] + more, secret, REDACTED_VALUE);
  }

  lemma {:induction false} NotIntoMarker(secret: string, head: string, tail: string, m: nat)
    requires secret != "" && SafeSecret(secret)
    requires |tail| < m < |secret|
    ensures !EndsWith(head + REDACTED_VALUE + tail, secret[..m])
  {
    var k := m - |tail|;
    var x := secret[..k];
    assert secret[..m][..k] == x;
    EndsWithLong(head + REDACTED_VALUE, tail, secret[..m]);
    if k <= 10 {
      EndsWithShort(head, REDACTED_VALUE, x);
    } else {
      var body := head + REDACTED_VALUE;
      if k <= |body| {
        assert body[|body| - k..][k - 10..] == REDACTED_VALUE;
      }
    }
  }

  /** Nothing held back for a safe secret reaches into a replacement marker. */
  lemma {:induction false} HeldAfterMarker(secret: string, head: string, tail: string)
    requires secret != "" && SafeSecret(secret)
    ensures Held(secret, head + REDACTED_VALUE + tail) == Held(secret, tail)
  {
    var held := Held(secret, tail);
    var body := head + REDACTED_VALUE;
    EndsWithShort(body, tail, secret[..held]);
    forall m | held < m < |secret| ensures !EndsWith(body + tail, secret[..m]) {
      if m <= |tail| {
        EndsWithShort(body, tail, secret[..m]);
      } else {
        NotIntoMarker(secret, head, tail, m);
      }
    }
    HeldIs(secret, body + tail, held);
  }

  lemma {:induction false} SplitFront(raw: string, more: string, i: nat, n: nat)
    requires i + n <= |raw|
    ensures (raw + more)[..i] == raw[..i]
    ensures (raw + more)[i + n..] == raw[i + n..] + more
  {
  }

  /** What one buffer is worth once `more` is known to follow. */
  function Resumed(secret: string, buffer: string, more: string): string
    requires secret != ""
  {
    var cut := |buffer| - Held(secret, buffer);
    buffer[..cut] + Redact(secret, buffer[cut..] + more)
  }

  lemma {:induction false} ResumedIs(secret: string, buffer: string, more: string)
    requires secret != ""
    ensures var cut := |buffer| - Held(secret, buffer);
            Resumed(secret, buffer, more) == buffer[..cut] + Redact(secret, buffer[cut..] + more)
  {
  }

  lemma {:induction false} ResumedAfterMarker(secret: string, head: string, tail: string, more: string)
    requires secret != "" && SafeSecret(secret)
    ensures Resumed(secret, head + REDACTED_VALUE + tail, more) == head + REDACTED_VALUE + Resumed(secret, tail, more)
  {
    hide FindFrom, Replace, Held;
    HeldAfterMarker(secret, head, tail);
    var front := head + REDACTED_VALUE;
    var held := Held(secret, tail);
    var cut := |tail| - held;
    TakeDrop(front, tail, cut, 0);
    Assoc3(front, tail[..cut], Redact(secret, tail[cut..] + more));
  }

  /** Redacting a text and holding back its end loses nothing: whatever follows,
      the shown part is final and the held part may stand for the raw tail. */
  lemma {:induction false} Resume(secret: string, raw: string, more: string)
    requires secret != "" && SafeSecret(secret)
    ensures Redact(secret, raw + more) == Resumed(secret, Redact(secret, raw), more)
    decreases |raw|
  {
    hide FindFrom, Replace, Resumed;
    var i := Find(raw, secret);
    if i == -1 {
      ReplaceMiss(raw, secret, REDACTED_VALUE);
      UnheldIsFinal(secret, raw, more);
      assert Resumed(secret, raw, more) == Redact(secret, raw + more) by { ResumedIs(secret, raw, more); }
    } else {
      var head, rest := raw[..i], raw[i + |secret|..];
      Resume(secret, rest, more);
      FindStable(raw, more, secret);
      SplitFront(raw, more, i, |secret|);
      ReplaceHit(raw, secret, REDACTED_VALUE, i);
      ReplaceHit(raw + more, secret, REDACTED_VALUE, i);
      ResumedAfterMarker(secret, head, Redact(secret, rest), more);
    }
  }

  lemma {:induction false} NotIntoShown(secret: string, shown: string, pending: string, text: string, m: nat)
    requires secret != "" && Held(secret, shown + pending) <= |pending|
    requires |pending + text| < m < |secret|
    ensures !EndsWith(shown + (pending + text), secret[..m])
  {
    hide LargestHeld;
    Assoc3(shown, pending, text);
    EndsWithLong(shown + pending, text, secret[..m]);
    assert secret[..m][..m - |text|] == secret[..m - |text|];
  }

  lemma {:induction false} HeldIsLocalRaw(secret: string, shown: string, pending: string, text: string)
    requires secret != ""
    requires Held(secret, shown + pending) <= |pending|
    ensures Held(secret, shown + (pending + text)) == Held(secret, pending + text)
  {
    hide LargestHeld;
    var raw := pending + text;
    var held := Held(secret, raw);
    EndsWithShort(shown, raw, secret[..held]);
    forall m | held < m < |secret| ensures !EndsWith(shown + raw, secret[..m]) {
      if m <= |raw| {
        EndsWithShort(shown, raw, secret[..m]);
      } else {
        NotIntoShown(secret, shown, pending, text, m);
      }
    }
    HeldIs(secret, shown + raw, held);
  }

  /** The held tail of the redaction of the whole text is the held tail of the
      last buffer alone. */
  lemma {:induction false} HeldIsLocal(secret: string, shown: string, pending: string, text: string)
    requires secret != "" && SafeSecret(secret)
    requires Held(secret, shown + pending) == |pending|
    ensures Held(secret, shown + Redact(secret, pending + text)) == Held(secret, Redact(secret, pending + text))
  {
    hide FindFrom, Replace, Held;
    var raw := pending + text;
    var i := Find(raw, secret);
    if i == -1 {
      ReplaceMiss(raw, secret, REDACTED_VALUE);
      HeldIsLocalRaw(secret, shown, pending, text);
    } else {
      var head, tail := raw[..i], Redact(secret, raw[i + |secret|..]);
      ReplaceHit(raw, secret, REDACTED_VALUE, i);
      HeldAfterMarker(secret, head, tail);
      HeldAfterMarker(secret, shown + head, tail);
      Assoc4(shown, head, REDACTED_VALUE, tail);
    }
  }

  /** `flow` is the redaction of `text`, split where the held part begins. */
  ghost predicate Splits(secret: string, flow: Flow, text: string)
    requires secret != ""
  {
    var whole := Redact(secret, text);
    flow.shown + flow.pending == whole && |flow.pending| == Held(secret, whole)
  }

  lemma {:induction false} SplitResumes(secret: string, flow: Flow, text: string, more: string)
    requires secret != "" && SafeSecret(secret) && Splits(secret, flow, text)
    ensures Redact(secret, text + more) == flow.shown + Redact(secret, flow.pending + more)
  {
    hide FindFrom, Replace;
    Resume(secret, text, more);
    var whole := Redact(secret, text);
    var cut := |whole| - |flow.pending|;
    assert whole[..cut] == flow.shown && whole[cut..] == flow.pending;
  }

  lemma {:induction false} TakeAndDrop(text: string, i: nat)
    requires i <= |text|
    ensures text[..i] + text[i..] == text
  {
  }

  lemma {:induction false} PushSplits(secret: string, flow: Flow, text: string, more: string)
    requires secret != "" && SafeSecret(secret) && Splits(secret, flow, text)
    ensures var now := Push(secret, flow.pending, more);
            Splits(secret, Flow(flow.shown + now.shown, now.pending), text + more)
  {
    hide FindFrom, Replace;
    SplitResumes(secret, flow, text, more);
    HeldIsLocal(secret, flow.shown, flow.pending, more);
    var now := Push(secret, flow.pending, more);
    var buffer := Redact(secret, flow.pending + more);
    TakeAndDrop(buffer, |now.shown|);
    Assoc3(flow.shown, now.shown, now.pending);
  }

  /** After any deltas, what is shown and what is pending are the two parts of
      the redaction of everything received. */
  lemma {:induction false} PushAllSplits(secret: string, texts: seq<string>)
    requires secret != "" && SafeSecret(secret)
    ensures Splits(secret, PushAll(secret, texts), Concat(texts))
    decreases |texts|
  {
    if texts == [] {
      ReplaceNone("", secret, REDACTED_VALUE);
    } else {
      var init, last := texts[..|texts| - 1], texts[|texts| - 1];
      assert texts == init + [last];
      ConcatSnoc(init, last);
      PushAllSplits(secret, init);
      PushSplits(secret, PushAll(secret, init), Concat(init), last);
    }
  }

  /** Streaming redaction equals whole-text redaction, however the text is cut. */
  lemma {:induction false} StreamingRefinesRedaction(secret: string, texts: seq<string>)
    requires secret != "" && SafeSecret(secret) && texts != []
    ensures Streamed(secret, texts) == Redact(secret, Concat(texts))
  {
    var init, last := texts[..|texts| - 1], texts[|texts| - 1];
    assert texts == init + [last];
    ConcatSnoc(init, last);
    PushAllSplits(secret, init);
    SplitResumes(secret, PushAll(secret, init), Concat(init), last);
  }

  // ----- and SafeSecret is necessary -----

  lemma {:induction false} TwoDeltas(secret: string, first: string, second: string)
    requires secret != ""
    ensures Streamed(secret, [first, second]) ==
            Push(secret, "", first).shown + Redact(secret, Push(secret, "", first).pending + second)
    ensures Concat([first, second]) == first + second
  {
    var texts := [first, second];
    assert texts[..1] == [first] && [first][..0] == [];
    assert PushAll(secret, [first]) == Push(secret, "", first) by {
      assert PushAll(secret, []) == Flow("", "");
    }
    assert texts[1..] == [second] && [second][1..] == [];
    assert Concat([second]) == second + Concat([]);
  }

  lemma {:induction false} RedactTwice(secret: string, second: string)
    requires secret != "" && |second| < |secret|
    ensures Redact(secret, secret + second) == REDACTED_VALUE + second
  {
    hide FindFrom, Replace;
    assert "" + secret + second == secret + second;
    FirstAtFront(secret, second);
    ReplaceNone(second, secret, REDACTED_VALUE);
    RedactHead(secret, "", second);
  }

  lemma {:induction false} FirstAtFront(secret: string, second: string)
    ensures Find(secret + second, secret) == 0
  {
    hide FindFrom;
    assert (secret + second)[0..|secret|] == secret;
    FindUnique(secret + second, secret, 0);
  }

  lemma {:induction false} RedactSecret(secret: string)
    requires secret != ""
    ensures Redact(secret, secret) == REDACTED_VALUE
  {
    hide FindFrom, Replace;
    RedactTwice(secret, "");
    assert secret + "" == secret && REDACTED_VALUE + "" == REDACTED_VALUE;
  }

  /** The two ways the marker can be cut and completed are different texts. */
  lemma {:induction false} MarkerHasNoBorder(held: nat, second: string)
    requires 0 < held <= 10 && (held == 10 ==> second != "")
    ensures REDACTED_VALUE[..10 - held] + REDACTED_VALUE != REDACTED_VALUE + second
  {
    var left, right := REDACTED_VALUE[..10 - held] + REDACTED_VALUE, REDACTED_VALUE + second;
    if held < 10 {
      assert left[10 - held] == '<' && right[10 - held] == REDACTED_VALUE[10 - held] != '<';
    } else {
      assert |left| == 10 < |right|;
    }
  }

  /** A proper prefix that ends the marker: cut right after a secret, then send
      the rest of the secret again. */
  lemma {:induction false} UnsafeByPrefix(secret: string, k: nat) returns (texts: seq<string>)
    requires 0 < k < |secret| && EndsWith(REDACTED_VALUE, secret[..k])
    ensures |texts| == 2 && texts[0] == secret && forall c :: c in texts[1] ==> c in secret
    ensures Streamed(secret, texts) != Redact(secret, Concat(texts))
  {
    hide FindFrom, Replace, PushAll;
    RedactSecret(secret);
    var held := Held(secret, REDACTED_VALUE);
    var second := secret[held..];
    texts := [secret, second];
    assert "" + secret == secret;
    assert Push(secret, "", secret) == Flow(REDACTED_VALUE[..10 - held], secret[..held]);
    TakeAndDrop(secret, held);
    TwoDeltas(secret, secret, second);
    RedactTwice(secret, second);
    MarkerHasNoBorder(held, second);
  }

  /** The first marker inside a secret, found where it ends. */
  lemma {:induction false} FirstInnerMarker(secret: string, k: nat) returns (m: nat)
    requires 0 < k < |secret| && EndsWith(secret[..k], REDACTED_VALUE)
    ensures 10 <= m <= k && EndsWith(secret[..m], REDACTED_VALUE)
    ensures forall j :: 0 < j < m ==> !EndsWith(secret[..j], REDACTED_VALUE)
  {
    m := k;
    while exists j :: 0 < j < m && EndsWith(secret[..j], REDACTED_VALUE)
      invariant 10 <= m <= k && EndsWith(secret[..m], REDACTED_VALUE)
      decreases m
    {
      var j :| 0 < j < m && EndsWith(secret[..j], REDACTED_VALUE);
      m := j;
    }
  }

  lemma {:induction false} InnerCopy(secret: string, m: nat, more: string, j: nat)
    requires 10 <= m <= |secret| && secret[m - 10..m] == REDACTED_VALUE && j < m - 10
    ensures OccursAt((secret[..m - 10] + secret) + more, secret, j) ==> EndsWith(secret[..j + 10], REDACTED_VALUE)
  {
    var text := (secret[..m - 10] + secret) + more;
    if OccursAt(text, secret, j) {
      forall t | 0 <= t < 10 ensures secret[j + t] == REDACTED_VALUE[t] {
        assert secret[m - 10 + t] == secret[m - 10..m][t];
        assert text[j..j + |secret|][m - 10 + t] == secret[m - 10 + t];
        assert text[m - 10 + (j + t)] == secret[j + t];
      }
      assert secret[..j + 10][j..] == REDACTED_VALUE;
    }
  }

  /** Before the first inner marker, the secret repeated at its own prefix occurs
      only where it was put. */
  lemma {:induction false} FirstAfterPrefix(secret: string, m: nat, more: string)
    requires 10 <= m <= |secret| && secret[m - 10..m] == REDACTED_VALUE
    requires forall j :: 0 < j < m ==> !EndsWith(secret[..j], REDACTED_VALUE)
    ensures Find((secret[..m - 10] + secret) + more, secret) == m - 10
  {
    hide FindFrom;
    var y := secret[..m - 10];
    var text := (y + secret) + more;
    forall j | 0 <= j < m - 10 ensures !OccursAt(text, secret, j) {
      InnerCopy(secret, m, more, j);
    }
    assert text[m - 10..m - 10 + |secret|] == secret;
    FindUnique(text, secret, m - 10);
  }

  /** A proper prefix that has the marker inside: the held copy of the prefix
      joins the rest of the secret into an occurrence the text does not have. */
  lemma {:induction false} UnsafeByMarker(secret: string, k: nat) returns (texts: seq<string>)
    requires 0 < k < |secret| && EndsWith(secret[..k], REDACTED_VALUE)
    ensures texts != [] && Streamed(secret, texts) != Redact(secret, Concat(texts))
  {
    hide FindFrom, Replace, PushAll;
    var m := FirstInnerMarker(secret, k);
    var y := secret[..m - 10];
    assert secret[m - 10..m] == REDACTED_VALUE by { assert secret[..m][m - 10..] == secret[m - 10..m]; }
    assert secret[..m] == y + REDACTED_VALUE by { assert secret[..m] == secret[..m - 10] + secret[m - 10..m]; }
    var first := y + secret;
    var second := secret[m..];
    texts := [first, second];
    assert Redact(secret, first) == secret[..m] by {
      RedactAfterPrefix(secret, m, "");
      assert first + "" == first;
      assert secret[..m] + "" == secret[..m];
    }
    RedactAfterPrefix(secret, m, second);
    assert Held(secret, secret[..m]) == m;
    assert "" + first == first;
    assert Push(secret, "", first) == Flow("", secret[..m]);
    TakeAndDrop(secret, m);
    RedactSecret(secret);
    TwoDeltas(secret, first, second);
    assert |Streamed(secret, texts)| == 10;
    assert |Redact(secret, first + second)| == |secret|;
  }

  lemma {:induction false} RedactAfterPrefix(secret: string, m: nat, more: string)
    requires 10 <= m <= |secret| && secret[m - 10..m] == REDACTED_VALUE
    requires forall j :: 0 < j < m ==> !EndsWith(secret[..j], REDACTED_VALUE)
    requires |more| < |secret|
    ensures Redact(secret, (secret[..m - 10] + secret) + more) == secret[..m] + more
  {
    hide FindFrom, Replace;
    FirstAfterPrefix(secret, m, more);
    RedactHead(secret, secret[..m - 10], more);
    ReplaceNone(more, secret, REDACTED_VALUE);
    assert secret[..m] == secret[..m - 10] + secret[m - 10..m];
  }

  /** Exactly the safe secrets are redacted the same way for every cutting of
      every text. */
  lemma {:induction false} StreamingIsExactlySafe(secret: string)
    requires secret != ""
    ensures SafeSecret(secret) <==>
            forall texts: seq<string> :: texts != [] ==> Streamed(secret, texts) == Redact(secret, Concat(texts))
  {
    if SafeSecret(secret) {
      forall texts: seq<string> | texts != []
        ensures Streamed(secret, texts) == Redact(secret, Concat(texts))
      {
        StreamingRefinesRedaction(secret, texts);
      }
    } else {
      var k :| 0 < k < |secret| && (EndsWith(REDACTED_VALUE, secret[..k]) || EndsWith(secret[..k], REDACTED_VALUE));
      var texts;
      if EndsWith(REDACTED_VALUE, secret[..k]) {
        texts := UnsafeByPrefix(secret, k);
      } else {
        texts := UnsafeByMarker(secret, k);
      }
    }
  }

  lemma {:induction false} FindAbsent(text: string, pat: string)
    requires pat != "" && pat[0] !in text
    ensures Find(text, pat) == -1
  {
    hide FindFrom;
    forall j | 0 <= j ensures !OccursAt(text, pat, j) {
      if j + |pat| <= |text| { assert text[j..j + |pat|][0] == text[j]; }
    }
    FindUnique(text, pat, -1);
  }
}
