/** What the prompt holds: the five sections in order, and what each of them keeps. */
module PromptContents {
  import opened Basics
  import opened Text
  import opened PromptBudget

  // ----- the sections stand in the prompt -----

  /** The sections as they are shown, in the order of the prompt, and the request
      without its trailing white space. */
  function Shown(c: Content, b: Budgets): seq<string> {
    [TailClip(c.prefix, b.prefix), TailClip(c.memory, b.memory), RenderRelevant(c.notes, b.relevant),
     RenderHistory(c.entries, c.rawHistory, b.history), RStrip(c.request)]
  }

  /** Where the i-th part of a text begins when one gap of two newlines stands between
      neighbours. */
  function Position(parts: seq<string>, i: nat): nat
    requires i < |parts|
  {
    if i == 0 then 0 else Position(parts, i - 1) + |parts[i - 1]| + 2
  }

  lemma {:induction false} PartStands(a: string, part: string, b: string)
    ensures OccursAt(a + part + b, part, |a|)
  {
  }

  lemma {:induction false} PositionLater(parts: seq<string>, i: nat)
    requires 0 < i < |parts|
    ensures Position(parts, i) == |parts[0]| + 2 + Position(parts[1..], i - 1)
  {
    if i > 1 { PositionLater(parts, i - 1); }
  }

  lemma {:induction false} HeadStands(head: string, rest: string)
    ensures OccursAt(head + "\n\n" + rest, head, 0) && OccursAt(head + "\n\n" + rest, "\n\n", |head|)
  {
    hide OccursAt;
    PartStands("", head, "\n\n" + rest);
    PartStands(head, "\n\n", rest);
    assert "" + head + ("\n\n" + rest) == head + "\n\n" + rest;
  }

  /** Every part of a joined text stands at its position, and every gap behind its part. */
  lemma {:induction false} JoinStands(parts: seq<string>, i: nat)
    requires i < |parts|
    ensures var text := Join(parts, "\n\n");
            && OccursAt(text, parts[i], Position(parts, i))
            && (i + 1 < |parts| ==> OccursAt(text, "\n\n", Position(parts, i) + |parts[i]|))
            && |text| == Position(parts, |parts| - 1) + |parts[|parts| - 1]|
    decreases |parts|
  {
    hide OccursAt;
    var text := Join(parts, "\n\n");
    if |parts| == 1 {
      PartStands("", parts[0], "");
      assert "" + parts[0] + "" == parts[0];
    } else {
      var rest := Join(parts[1..], "\n\n");
      PositionLater(parts, |parts| - 1);
      assert text == parts[0] + "\n\n" + rest;
      if i == 0 {
        JoinStands(parts[1..], 0);
        HeadStands(parts[0], rest);
      } else {
        JoinStands(parts[1..], i - 1);
        PositionLater(parts, i);
        OccursShift(parts[0] + "\n\n", rest, parts[i], Position(parts[1..], i - 1));
        OccursShift(parts[0] + "\n\n", rest, "\n\n", Position(parts[1..], i - 1) + |parts[i]|);
      }
    }
  }

  lemma {:induction false} FiveJoined(a: string, b: string, c: string, d: string, e: string)
    ensures Join([a, b, c, d, e], "\n\n") == a + "\n\n" + b + "\n\n" + c + "\n\n" + d + "\n\n" + e
  {
    assert [a, b, c, d, e][1..] == [b, c, d, e] && [b, c, d, e][1..] == [c, d, e];
    assert [c, d, e][1..] == [d, e] && [d, e][1..] == [e];
    assert Join([d, e], "\n\n") == d + "\n\n" + e;
    assert Join([c, d, e], "\n\n") == c + "\n\n" + (d + "\n\n" + e);
    assert Join([b, c, d, e], "\n\n") == b + "\n\n" + (c + "\n\n" + (d + "\n\n" + e));
  }

  /** The prompt is the five sections with a gap between neighbours, less the white
      space around the whole. */
  lemma {:induction false} PromptIs(c: Content, b: Budgets)
    requires c.request != "" && !IsSpace(c.request[0])
    ensures Prompt(c, b) == LStrip(Join(Shown(c, b), "\n\n"))
  {
    hide Join, LStrip, RStrip, RenderRelevant, RenderHistory, TailClip;
    var s := Shown(c, b);
    FiveJoined(s[0], s[1], s[2], s[3], s[4]);
    assert s == [s[0], s[1], s[2], s[3], s[4]];
    var front := Front(c, b);
    assert front == s[0] + "\n\n" + s[1] + "\n\n" + s[2] + "\n\n" + s[3] + "\n\n";
    assert Join(s, "\n\n") == front + s[4];
    LStripInFront(front, c.request);
    RStripBehind(LStrip(front), c.request);
    RStripStart(c.request);
    LStripInFront(front, s[4]);
  }

  lemma {:induction false} RStripStart(text: string)
    requires text != "" && !IsSpace(text[0])
    ensures RStrip(text) != "" && RStrip(text)[0] == text[0]
    decreases |text|
  {
    if IsSpace(text[|text| - 1]) { RStripStart(text[..|text| - 1]); }
  }

  lemma {:induction false} JoinStarts(parts: seq<string>)
    requires parts != [] && parts[0] != ""
    ensures Join(parts, "\n\n") != "" && Join(parts, "\n\n")[0] == parts[0][0]
  {
  }

  /** With a prefix that does not begin in white space every section stands in the
      prompt, whole as it is shown, in order, one gap between neighbours. */
  lemma {:induction false} SectionsStand(c: Content, b: Budgets)
    requires c.request != "" && !IsSpace(c.request[0])
    requires c.prefix != "" && !IsSpace(c.prefix[0]) && b.prefix > 0
    ensures var parts := Shown(c, b);
            && |Prompt(c, b)| == Position(parts, 4) + |parts[4]|
            && (forall i :: 0 <= i < 5 ==> OccursAt(Prompt(c, b), parts[i], Position(parts, i)))
            && (forall i :: 0 <= i < 4 ==> OccursAt(Prompt(c, b), "\n\n", Position(parts, i) + |parts[i]|))
  {
    hide Join, RStrip, RenderRelevant, RenderHistory, Prompt, OccursAt;
    PromptIs(c, b);
    forall i | 0 <= i < 5
      ensures OccursAt(Join(Shown(c, b), "\n\n"), Shown(c, b)[i], Position(Shown(c, b), i))
      ensures i < 4 ==> OccursAt(Join(Shown(c, b), "\n\n"), "\n\n", Position(Shown(c, b), i) + |Shown(c, b)[i]|)
    {
      JoinStands(Shown(c, b), i);
    }
    JoinStands(Shown(c, b), 0);
    JoinStarts(Shown(c, b));
    var text := Join(Shown(c, b), "\n\n");
    assert Shown(c, b)[0] != "" && Shown(c, b)[0][0] == c.prefix[0];
    assert text[0] == c.prefix[0];
    assert LStrip(text) == text;
  }

  /** A prefix or a memory within its budget stands there whole. */
  lemma {:induction false} WithinBudgetIsWhole(c: Content, b: Budgets)
    ensures |c.prefix| <= b.prefix ==> Shown(c, b)[0] == c.prefix
    ensures |c.memory| <= b.memory ==> Shown(c, b)[1] == c.memory
    ensures 3 < b.prefix < |c.prefix| ==> Shown(c, b)[0] == c.prefix[..b.prefix - 3] + "..."
    ensures 3 < b.memory < |c.memory| ==> Shown(c, b)[1] == c.memory[..b.memory - 3] + "..."
  {
  }

  // ----- relevant memory -----

  /** Notes of white space are left out, all others stay in order. */
  lemma {:induction false} NotesFiltered(a: seq<string>, note: string, b: seq<string>)
    ensures NoteTexts(a + [note] + b) == NoteTexts(a) + (if Strip(note) == "" then [] else [note]) + NoteTexts(b)
  {
    hide Strip;
    if a == [] {
      assert a + [note] + b == [note] + b && ([note] + b)[1..] == b;
      assert [] + NoteTexts(b) == NoteTexts(b);
    } else {
      assert (a + [note] + b)[0] == a[0] && (a + [note] + b)[1..] == a[1..] + [note] + b;
      NotesFiltered(a[1..], note, b);
    }
  }

  /** The equal share of a note. */
  function Share(budget: int, count: nat): int
    requires count > 0
  {
    (budget - 16 - 3 * count) / count
  }

  lemma {:induction false} BulletedAt(texts: seq<string>, limit: int, i: nat)
    requires i < |texts|
    ensures Bulleted(texts, limit)[i] == "- " + TailClip(texts[i], limit)
  {
    hide TailClip;
    if i > 0 { BulletedAt(texts[1..], limit, i - 1); }
  }

  lemma {:induction false} ShareIsPositive(budget: int, count: nat)
    requires count > 0 && budget >= 16 + 4 * count
    ensures Share(budget, count) >= 1 && PerNoteBudget(budget, count) == Share(budget, count)
    ensures count * Share(budget, count) <= budget - 16 - 3 * count
  {
    var usable := budget - 16 - 3 * count;
    assert usable >= count;
    Quotient(usable, count);
  }

  lemma {:induction false} Quotient(n: int, k: int)
    requires n >= k > 0
    ensures n / k >= 1 && k * (n / k) <= n
  {
  }

  /** With room for one character a note and more, every note has its line; the note is
      there whole if it fits its share, and cut to the share otherwise. */
  lemma {:induction false} NotesStand(notes: seq<string>, budget: int) returns (lines: seq<string>)
    requires var n := |NoteTexts(notes)|; n > 0 && budget >= 16 + 4 * n
    ensures RenderRelevant(notes, budget) == Join(["Relevant memory:"] + lines, "\n")
    ensures |lines| == |NoteTexts(notes)|
    ensures forall i :: 0 <= i < |lines| ==>
              var text, share := NoteTexts(notes)[i], Share(budget, |lines|);
              && (|text| <= share ==> lines[i] == "- " + text)
              && (3 < share < |text| ==> lines[i] == "- " + text[..share - 3] + "...")
  {
    hide Join, Bulleted, LinesLength, PerNoteBudget, NoteTexts, FittedNotes, TailClip, Whole, Share, Under;
    var texts := NoteTexts(notes);
    var share := Share(budget, |texts|);
    lines := Bulleted(texts, share);
    ShareIsPositive(budget, |texts|);
    FirstShareStands(notes, budget);
    BulletedLength(texts, share);
    UnderLength(RELEVANT_HEADER, lines);
    Distribute(|texts|, share);
    assert Under(RELEVANT_HEADER, lines) == Join(["Relevant memory:"] + lines, "\n") by {
      UnderIs(RELEVANT_HEADER, lines);
    }
    forall i | 0 <= i < |lines|
      ensures |texts[i]| <= share ==> lines[i] == "- " + texts[i]
      ensures 3 < share < |texts[i]| ==> lines[i] == "- " + texts[i][..share - 3] + "..."
    {
      BulletedAt(texts, share, i);
      ClippedNote(texts[i], share);
    }
  }

  lemma {:induction false} UnderIs(header: string, lines: seq<string>)
    ensures Under(header, lines) == Join([header] + lines, "\n")
  {
  }

  lemma {:induction false} ClippedNote(text: string, share: int)
    ensures |text| <= share ==> TailClip(text, share) == text
    ensures 3 < share < |text| ==> "- " + TailClip(text, share) == "- " + text[..share - 3] + "..."
  {
    if 3 < share < |text| { Assoc3("- ", text[..share - 3], "..."); }
  }

  // ----- history -----

  function AllLines(entries: seq<Entry>): seq<string> {
    if entries == [] then [] else entries[0].lines + AllLines(entries[1..])
  }

  lemma {:induction false} FitsLess(front: seq<string>, lines: seq<string>, budget: int)
    requires FitsHistory(front + lines, budget)
    ensures FitsHistory(lines, budget)
  {
    hide Join, LinesLength;
    UnderLength(TRANSCRIPT, front + lines);
    UnderLength(TRANSCRIPT, lines);
    LinesLengthConcat(front, lines);
  }

  /** Lines that fit altogether are all kept, in order. */
  lemma {:induction false} AllKept(entries: seq<Entry>, budget: int)
    requires FitsHistory(AllLines(entries), budget)
    ensures KeepFrom(entries, budget) == AllLines(entries)
  {
    hide FitsHistory;
    if entries != [] {
      FitsLess(entries[0].lines, AllLines(entries[1..]), budget);
      AllKept(entries[1..], budget);
    }
  }

  lemma {:induction false} HistoryStands(entries: seq<Entry>, raw: string, budget: int)
    requires entries != [] && |Join(["Transcript:"] + AllLines(entries), "\n")| <= budget
    ensures RenderHistory(entries, raw, budget) == Join(["Transcript:"] + AllLines(entries), "\n")
  {
    hide Join;
    AllKept(entries, budget);
  }

  /** The lines of an entry, each cut to the limit. */
  function Cut(lines: seq<string>, limit: int): (r: seq<string>)
    ensures |r| == |lines| && forall i :: 0 <= i < |r| ==> r[i] == TailClip(lines[i], limit)
  {
    seq(|lines|, i requires 0 <= i < |lines| => TailClip(lines[i], limit))
  }

  lemma {:induction false} ClipLinesAre(lines: seq<string>, limit: int)
    ensures ClipLines(lines, limit) == Cut(lines, limit)
  {
    hide TailClip;
    if lines != [] {
      ClipLinesAre(lines[1..], limit);
      assert Cut(lines, limit) == [TailClip(lines[0], limit)] + Cut(lines[1..], limit);
    }
  }

  /** An older entry in front of what the newer ones keep: whole if that fits, cut to
      20 characters a line, or for a recent entry to the room that is left if that is
      more, and if that fits; and else left out. */
  lemma {:induction false} OneEntryOlder(e: Entry, newer: seq<Entry>, budget: int)
    ensures var kept := KeepFrom(newer, budget);
            var room := budget - |Join(["Transcript:"] + kept, "\n")| - 1;
            var cut := Cut(e.lines, if e.recent && room > 20 then room else 20);
            KeepFrom([e] + newer, budget) ==
              if |Join(["Transcript:"] + (e.lines + kept), "\n")| <= budget then e.lines + kept
              else if |Join(["Transcript:"] + (cut + kept), "\n")| <= budget then cut + kept
              else kept
  {
    hide Join, TailClip, LinesLength;
    assert ([e] + newer)[1..] == newer;
    var kept := KeepFrom(newer, budget);
    UnderLength(TRANSCRIPT, kept);
    ClipLinesAre(e.lines, if e.recent then Available(kept, budget) else 20);
  }
}
