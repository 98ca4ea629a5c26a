/** Plain string operations the other modules share, with the meaning the
    Python built-ins give them. */
module Text {

  /** The characters `str.strip()` removes. */
  predicate IsSpace(c: char) {
    || '\U{9}' <= c <= '\U{d}'
    || '\U{1c}' <= c <= '\U{20}'
    || c == '\U{85}' || c == '\U{a0}' || c == '\U{1680}'
    || '\U{2000}' <= c <= '\U{200a}'
    || c == '\U{2028}' || c == '\U{2029}' || c == '\U{202f}' || c == '\U{205f}' || c == '\U{3000}'
  }

  function LStrip(s: string): (r: string)
    ensures |r| <= |s|
    ensures r != "" ==> !IsSpace(r[0])
  {
    if s != "" && IsSpace(s[0]) then LStrip(s[1..]) else s
  }

  function RStrip(s: string): (r: string)
    ensures |r| <= |s|
    ensures r != "" ==> !IsSpace(r[|r| - 1])
  {
    if s != "" && IsSpace(s[|s| - 1]) then RStrip(s[..|s| - 1]) else s
  }

  lemma {:induction false} RStripKeepsFront(s: string)
    ensures RStrip(s) == s[..|RStrip(s)|]
    ensures forall i :: |RStrip(s)| <= i < |s| ==> IsSpace(s[i])
  {
    if s != "" && IsSpace(s[|s| - 1]) {
      var init := s[..|s| - 1];
      RStripKeepsFront(init);
      assert init[..|RStrip(init)|] == s[..|RStrip(init)|];
      forall i | |RStrip(init)| <= i < |s| ensures IsSpace(s[i]) {
        if i < |init| { assert s[i] == init[i]; }
      }
    }
  }

  function Strip(s: string): (r: string)
    ensures |r| <= |s|
    ensures r != "" ==> !IsSpace(r[0]) && !IsSpace(r[|r| - 1])
  {
    RStripKeepsFront(LStrip(s));
    RStrip(LStrip(s))
  }

  lemma {:induction false} StripIdempotent(s: string)
    ensures Strip(Strip(s)) == Strip(s)
  {
    var r := Strip(s);
    if r != "" {
      assert LStrip(r) == r;
    }
  }

  predicate OccursAt(text: string, pat: string, i: int) {
    0 <= i && i + |pat| <= |text| && text[i..i + |pat|] == pat
  }

  predicate EndsWith(text: string, tail: string) {
    |tail| <= |text| && text[|text| - |tail|..] == tail
  }

  /** The first occurrence of `pat` at or after `from`; -1 when there is none. */
  function FindFrom(text: string, pat: string, from: nat): (r: int)
    ensures r == -1 || from <= r <= |text| - |pat|
    decreases |text| + 1 - from
  {
    if from + |pat| > |text| then -1
    else if text[from..from + |pat|] == pat then from
    else FindFrom(text, pat, from + 1)
  }

  /** `text.find(pat)`. */
  function Find(text: string, pat: string): (r: int)
    ensures r == -1 || 0 <= r <= |text| - |pat|
  {
    FindFrom(text, pat, 0)
  }

  /** `r` is where `pat` first occurs, or -1 and it does not occur. */
  ghost predicate IsFirst(text: string, pat: string, r: int) {
    && (r == -1 || OccursAt(text, pat, r))
    && forall j :: 0 <= j && (r == -1 || j < r) ==> !OccursAt(text, pat, j)
  }

  lemma {:induction false} FindFromIsFirst(text: string, pat: string, from: nat)
    requires forall j :: 0 <= j < from ==> !OccursAt(text, pat, j)
    ensures IsFirst(text, pat, FindFrom(text, pat, from))
    decreases |text| + 1 - from
  {
    if from + |pat| <= |text| && text[from..from + |pat|] != pat {
      FindFromIsFirst(text, pat, from + 1);
    }
  }

  lemma {:induction false} FindIsFirst(text: string, pat: string)
    ensures IsFirst(text, pat, Find(text, pat))
  {
    FindFromIsFirst(text, pat, 0);
  }

  lemma {:induction false} FindUnique(text: string, pat: string, r: int)
    requires IsFirst(text, pat, r)
    ensures Find(text, pat) == r
  {
    FindIsFirst(text, pat);
  }

  lemma {:induction false} FindShort(text: string, pat: string)
    requires |text| < |pat|
    ensures Find(text, pat) == -1
  {
  }

  lemma {:induction false} OccursExtend(text: string, more: string, pat: string, j: int)
    requires j + |pat| <= |text|
    ensures OccursAt(text + more, pat, j) == OccursAt(text, pat, j)
  {
    if 0 <= j { assert (text + more)[j..j + |pat|] == text[j..j + |pat|]; }
  }

  lemma {:induction false} OccursShift(head: string, tail: string, pat: string, j: nat)
    ensures OccursAt(head + tail, pat, |head| + j) == OccursAt(tail, pat, j)
  {
    if j + |pat| <= |tail| {
      assert (head + tail)[|head| + j..|head| + j + |pat|] == tail[j..j + |pat|];
    }
  }

  /** A first match does not move when text is appended. */
  lemma {:induction false} FindStable(text: string, more: string, pat: string)
    requires Find(text, pat) != -1
    ensures Find(text + more, pat) == Find(text, pat)
  {
    var i := Find(text, pat);
    FindIsFirst(text, pat);
    OccursExtend(text, more, pat, i);
    forall j | 0 <= j < i ensures !OccursAt(text + more, pat, j) {
      OccursExtend(text, more, pat, j);
    }
    FindUnique(text + more, pat, i);
  }

  /** Dropping a head in which no match starts only shifts the first match. */
  lemma {:induction false} FindDrop(head: string, tail: string, pat: string)
    requires forall j :: 0 <= j < |head| ==> !OccursAt(head + tail, pat, j)
    ensures Find(head + tail, pat) == if Find(tail, pat) == -1 then -1 else |head| + Find(tail, pat)
  {
    var i := Find(tail, pat);
    FindIsFirst(tail, pat);
    if i != -1 { OccursShift(head, tail, pat, i); }
    var r := if i == -1 then -1 else |head| + i;
    forall j | 0 <= j && (r == -1 || j < r) ensures !OccursAt(head + tail, pat, j) {
      if |head| <= j { OccursShift(head, tail, pat, j - |head|); }
    }
    FindUnique(head + tail, pat, r);
  }

  lemma {:induction false} TakeDrop(head: string, tail: string, i: nat, n: nat)
    requires i + n <= |tail|
    ensures (head + tail)[..|head| + i] == head + tail[..i]
    ensures (head + tail)[|head| + i + n..] == tail[i + n..]
  {
  }

  lemma {:induction false} Assoc3(a: string, b: string, c: string)
    ensures (a + b) + c == a + (b + c)
  {
  }

  lemma {:induction false} Assoc4(a: string, b: string, c: string, d: string)
    ensures ((a + b) + c) + d == a + ((b + c) + d)
    ensures ((a + b) + c) + d == (a + b) + (c + d)
  {
  }

  lemma {:induction false} EndsWithShort(head: string, tail: string, x: string)
    requires |x| <= |tail|
    ensures EndsWith(head + tail, x) == EndsWith(tail, x)
  {
    assert (head + tail)[|head + tail| - |x|..] == tail[|tail| - |x|..];
  }

  lemma {:induction false} EndsWithLong(head: string, tail: string, x: string)
    requires |tail| <= |x|
    ensures EndsWith(head + tail, x) ==> EndsWith(head, x[..|x| - |tail|])
  {
    if |x| <= |head + tail| {
      var k := |x| - |tail|;
      assert (head + tail)[|head + tail| - |x|..][..k] == head[|head| - k..];
    }
  }

  /** `text.replace(old, with)`: every leftmost, non-overlapping occurrence. */
  function Replace(text: string, was: string, with: string): string
    requires was != ""
    decreases |text|
  {
    var i := Find(text, was);
    if i == -1 then text else text[..i] + with + Replace(text[i + |was|..], was, with)
  }

  lemma {:induction false} ReplaceHit(text: string, was: string, with: string, i: nat)
    requires was != "" && Find(text, was) == i
    ensures Replace(text, was, with) == (text[..i] + with) + Replace(text[i + |was|..], was, with)
  {
  }

  lemma {:induction false} ReplaceMiss(text: string, was: string, with: string)
    requires was != "" && Find(text, was) == -1
    ensures Replace(text, was, with) == text
  {
  }

  function Concat(parts: seq<string>): string {
    if parts == [] then "" else parts[0] + Concat(parts[1..])
  }

  lemma {:induction false} ConcatSnoc(parts: seq<string>, last: string)
    ensures Concat(parts + [last]) == Concat(parts) + last
  {
    if parts == [] {
      assert parts + [last] == [last];
      assert Concat([last]) == last + Concat([]);
    } else {
      assert (parts + [last])[1..] == parts[1..] + [last];
      ConcatSnoc(parts[1..], last);
    }
  }

  /** `sep.join(parts)`. */
  function Join(parts: seq<string>, sep: string): string {
    if parts == [] then "" else if |parts| == 1 then parts[0] else parts[0] + sep + Join(parts[1..], sep)
  }
}
