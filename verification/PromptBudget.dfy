/** Prompt assembly of pico/context_manager.py: section renderers that keep to a
    budget, and the loop that shrinks budgets until the prompt fits. */
module PromptBudget {
  import opened Basics
  import opened Text

  // ----- clipping and joining -----

  function TailClip(text: string, limit: int): (r: string)
    ensures |r| <= (if limit <= 0 then 0 else limit)
    ensures |text| <= limit ==> r == text
  {
    if limit <= 0 then ""
    else if |text| <= limit then text
    else if limit <= 3 then text[..limit]
    else text[..limit - 3] + "..."
  }

  /** The length of the lines joined under a header, one newline before each. */
  function LinesLength(lines: seq<string>): nat {
    if lines == [] then 0 else |lines[0]| + 1 + LinesLength(lines[1..])
  }

  function Under(header: string, lines: seq<string>): string {
    Join([header] + lines, "\n")
  }

  lemma {:induction false} JoinLength(lines: seq<string>, sep: string)
    ensures lines != [] ==> |Join(lines, sep)| + |sep| == LinesLength(lines) + |lines| * (|sep| - 1)
  {
    if |lines| > 1 {
      JoinLength(lines[1..], sep);
      assert |lines[1..]| == |lines| - 1;
    } else if |lines| == 1 {
      assert LinesLength(lines[1..]) == 0;
    }
  }

  lemma {:induction false} UnderLength(header: string, lines: seq<string>)
    ensures |Under(header, lines)| == |header| + LinesLength(lines)
  {
    JoinLength([header] + lines, "\n");
    assert ([header] + lines)[1..] == lines;
  }

  lemma {:induction false} LinesLengthConcat(a: seq<string>, b: seq<string>)
    ensures LinesLength(a + b) == LinesLength(a) + LinesLength(b)
  {
    if a == [] {
      assert a + b == b;
    } else {
      LinesLengthConcat(a[1..], b);
      assert (a + b)[1..] == a[1..] + b;
    }
  }

  // ----- relevant memory -----

  const RELEVANT_HEADER := "Relevant memory:"

  function NoteTexts(notes: seq<string>): seq<string> {
    if notes == [] then []
    else if Strip(notes[0]) != "" then [notes[0]] + NoteTexts(notes[1..])
    else NoteTexts(notes[1..])
  }

  function Bulleted(texts: seq<string>, limit: int): (r: seq<string>)
    ensures |r| == |texts|
  {
    if texts == [] then [] else ["- " + TailClip(texts[0], limit)] + Bulleted(texts[1..], limit)
  }

  function Whole(texts: seq<string>): (r: seq<string>)
    ensures |r| == |texts|
  {
    if texts == [] then [] else ["- " + texts[0]] + Whole(texts[1..])
  }

  function PerNoteBudget(budget: int, count: nat): int
    requires count > 0
  {
    Max(1, Max(0, budget - (|RELEVANT_HEADER| + 3 * count)) / count)
  }

  /** The loop over the per-note budget, from p downwards. */
  function FittedNotes(texts: seq<string>, budget: int, p: int): string
    decreases p
  {
    var rendered := Under(RELEVANT_HEADER, Bulleted(texts, p));
    if |rendered| <= budget || p <= 1 then rendered else FittedNotes(texts, budget, p - 1)
  }

  function RenderRelevant(notes: seq<string>, budget: int): string {
    var texts := NoteTexts(notes);
    if texts == [] then Under(RELEVANT_HEADER, ["- none"])
    else
      var rendered := FittedNotes(texts, budget, PerNoteBudget(budget, |texts|));
      if |rendered| > budget && budget > 0 then TailClip(Under(RELEVANT_HEADER, Whole(texts)), budget) else rendered
  }

  method RenderRelevantMemory(notes: seq<string>, budget: int) returns (rendered: string)
    ensures rendered == RenderRelevant(notes, budget)
  {
    hide NoteTexts, Under, Bulleted, PerNoteBudget, Whole, TailClip;
    var texts := NoteTexts(notes);
    if texts == [] {
      return Under(RELEVANT_HEADER, ["- none"]);
    }
    var perNote := PerNoteBudget(budget, |texts|);
    rendered := Under(RELEVANT_HEADER, Bulleted(texts, perNote));
    while !(|rendered| <= budget || perNote <= 1)
      invariant rendered == Under(RELEVANT_HEADER, Bulleted(texts, perNote))
      invariant FittedNotes(texts, budget, perNote) == FittedNotes(texts, budget, PerNoteBudget(budget, |texts|))
      decreases perNote
    {
      perNote := perNote - 1;
      rendered := Under(RELEVANT_HEADER, Bulleted(texts, perNote));
    }
    if |rendered| > budget && budget > 0 {
      rendered := TailClip(Under(RELEVANT_HEADER, Whole(texts)), budget);
    }
  }

  lemma {:induction false} OneMoreTimes(n: int, k: int)
    ensures (n + 1) * k == n * k + k
  {
  }

  lemma {:induction false} BulletedLength(texts: seq<string>, limit: int)
    requires limit >= 0
    ensures LinesLength(Bulleted(texts, limit)) <= |texts| * (3 + limit)
  {
    if texts != [] {
      BulletedLength(texts[1..], limit);
      OneMoreTimes(|texts[1..]|, 3 + limit);
      assert |texts| == |texts[1..]| + 1;
    }
  }

  lemma {:induction false} ShareFits(usable: nat, count: nat)
    requires count > 0
    ensures count * (usable / count) <= usable
  {
  }

  lemma {:induction false} SharesFit(budget: int, count: nat)
    requires count > 0 && PerNoteBudget(budget, count) > 1
    ensures |RELEVANT_HEADER| + count * (3 + PerNoteBudget(budget, count)) <= budget
  {
    var p := PerNoteBudget(budget, count);
    ShareFits(Max(0, budget - (|RELEVANT_HEADER| + 3 * count)), count);
    Distribute(count, p);
  }

  lemma {:induction false} Distribute(n: int, p: int)
    ensures n * (3 + p) == 3 * n + n * p
  {
  }

  /** The equal share always fits where there is room for one character a note, so
      the first turn of the loop is its last: the share is never reduced. */
  lemma {:induction false} FirstShareStands(notes: seq<string>, budget: int)
    requires NoteTexts(notes) != []
    ensures var texts := NoteTexts(notes);
            var p := PerNoteBudget(budget, |texts|);
            FittedNotes(texts, budget, p) == Under(RELEVANT_HEADER, Bulleted(texts, p))
  {
    hide Join, Bulleted, LinesLength, PerNoteBudget;
    var texts := NoteTexts(notes);
    var p := PerNoteBudget(budget, |texts|);
    if p > 1 {
      SharesFit(budget, |texts|);
      BulletedLength(texts, p);
      UnderLength(RELEVANT_HEADER, Bulleted(texts, p));
    }
  }

  lemma {:induction false} RelevantBound(notes: seq<string>, budget: int)
    requires budget > 0
    ensures |RenderRelevant(notes, budget)| <= Max(23, budget)
    ensures NoteTexts(notes) != [] ==> |RenderRelevant(notes, budget)| <= budget
  {
    hide FittedNotes, Join;
    UnderLength(RELEVANT_HEADER, ["- none"]);
    assert ["- none"][1..] == [];
  }

  // ----- history -----

  const TRANSCRIPT := "Transcript:"

  /** One compressed entry of the history. */
  datatype Entry = Entry(recent: bool, lines: seq<string>)

  function ClipLines(lines: seq<string>, limit: int): (r: seq<string>)
    ensures |r| == |lines|
  {
    if lines == [] then [] else [TailClip(lines[0], limit)] + ClipLines(lines[1..], limit)
  }

  predicate FitsHistory(lines: seq<string>, budget: int) {
    |Under(TRANSCRIPT, lines)| <= budget
  }

  /** What is left for one recent entry beside the lines kept so far. */
  function Available(kept: seq<string>, budget: int): int {
    Max(20, budget - |TRANSCRIPT| - LinesLength(kept) - 1)
  }

  /** One entry, taken whole, clipped, or dropped, in front of what is kept. */
  function Keep(e: Entry, kept: seq<string>, budget: int): seq<string> {
    if FitsHistory(e.lines + kept, budget) then e.lines + kept
    else
      var clipped := ClipLines(e.lines, if e.recent then Available(kept, budget) else 20);
      if FitsHistory(clipped + kept, budget) then clipped + kept else kept
  }

  /** The entries from the newest back to the first of the list. */
  function KeepFrom(entries: seq<Entry>, budget: int): seq<string> {
    if entries == [] then [] else Keep(entries[0], KeepFrom(entries[1..], budget), budget)
  }

  function RenderHistory(entries: seq<Entry>, raw: string, budget: int): string {
    if entries == [] then Under(TRANSCRIPT, ["- empty"])
    else
      var rendered := Under(TRANSCRIPT, KeepFrom(entries, budget));
      if |rendered| > budget && budget > 0 then TailClip(raw, budget) else rendered
  }

  method RenderHistorySection(entries: seq<Entry>, raw: string, budget: int) returns (rendered: string)
    ensures rendered == RenderHistory(entries, raw, budget)
  {
    hide Join, LinesLength, TailClip;
    if entries == [] {
      return Under(TRANSCRIPT, ["- empty"]);
    }
    var kept: seq<string> := [];
    assert entries[|entries|..] == [];
    for i := |entries| downto 0
      invariant kept == KeepFrom(entries[i..], budget)
    {
      assert entries[i..][0] == entries[i] && entries[i..][1..] == entries[i + 1..];
      var candidate := entries[i].lines;
      if FitsHistory(candidate + kept, budget) {
        kept := candidate + kept;
        continue;
      }
      if entries[i].recent {
        var available := budget - |TRANSCRIPT|;
        if kept != [] {
          available := available - LinesLength(kept);
        } else {
          assert LinesLength(kept) == 0 by { NoLines(); }
        }
        available := Max(20, available - 1);
        candidate := ClipLines(candidate, available);
      } else {
        candidate := ClipLines(candidate, 20);
      }
      if FitsHistory(candidate + kept, budget) {
        kept := candidate + kept;
      }
    }
    assert entries[0..] == entries;
    rendered := Under(TRANSCRIPT, kept);
    if |rendered| > budget && budget > 0 {
      rendered := TailClip(raw, budget);
    }
  }

  lemma {:induction false} NoLines()
    ensures LinesLength([]) == 0
  {
  }

  /** What is kept always fits, or is nothing. */
  lemma {:induction false} KeptFits(entries: seq<Entry>, budget: int)
    ensures FitsHistory(KeepFrom(entries, budget), budget) || KeepFrom(entries, budget) == []
  {
    hide FitsHistory, ClipLines;
    if entries != [] { KeptFits(entries[1..], budget); }
  }

  lemma {:induction false} HistoryBound(entries: seq<Entry>, raw: string, budget: int)
    requires budget > 0
    ensures |RenderHistory(entries, raw, budget)| <= Max(19, budget)
    ensures entries != [] ==> |RenderHistory(entries, raw, budget)| <= budget
  {
    hide KeepFrom, Join;
    UnderLength(TRANSCRIPT, ["- empty"]);
    assert ["- empty"][1..] == [];
  }

  /** Newer entries come first: what a list of entries keeps is what its newer part
      keeps, with older lines in front. */
  lemma {:induction false} NewestFirst(older: seq<Entry>, newer: seq<Entry>, budget: int) returns (front: seq<string>)
    ensures KeepFrom(older + newer, budget) == front + KeepFrom(newer, budget)
    decreases |older|
  {
    hide FitsHistory, ClipLines;
    if older == [] {
      assert older + newer == newer;
      front := [];
      assert [] + KeepFrom(newer, budget) == KeepFrom(newer, budget);
    } else {
      var rest := NewestFirst(older[1..], newer, budget);
      assert (older + newer)[0] == older[0] && (older + newer)[1..] == older[1..] + newer;
      front := InFront(older[0], rest, KeepFrom(newer, budget), budget);
    }
  }

  lemma {:induction false} InFront(e: Entry, rest: seq<string>, kept: seq<string>, budget: int)
      returns (front: seq<string>)
    ensures Keep(e, rest + kept, budget) == front + kept
  {
    hide FitsHistory, ClipLines;
    var clipped := ClipLines(e.lines, if e.recent then Available(rest + kept, budget) else 20);
    assert e.lines + (rest + kept) == (e.lines + rest) + kept;
    assert clipped + (rest + kept) == (clipped + rest) + kept;
    front := if FitsHistory(e.lines + (rest + kept), budget) then e.lines + rest
             else if FitsHistory(clipped + (rest + kept), budget) then clipped + rest
             else rest;
  }

  // ----- the five sections -----

  datatype Section = Prefix | Memory | Relevant | History

  datatype Budgets = Budgets(prefix: int, memory: int, relevant: int, history: int)

  function Of(b: Budgets, s: Section): int {
    match s
    case Prefix => b.prefix
    case Memory => b.memory
    case Relevant => b.relevant
    case History => b.history
  }

  function With(b: Budgets, s: Section, value: int): (r: Budgets)
    ensures Of(r, s) == value && forall t :: t != s ==> Of(r, t) == Of(b, t)
  {
    match s
    case Prefix => b.(prefix := value)
    case Memory => b.(memory := value)
    case Relevant => b.(relevant := value)
    case History => b.(history := value)
  }

  /** What the sections are rendered from; the request is never clipped. */
  datatype Content = Content(prefix: string, memory: string, notes: seq<string>, entries: seq<Entry>,
    rawHistory: string, request: string)

  const GAP := "\n\n"

  function Front(c: Content, b: Budgets): string {
    TailClip(c.prefix, b.prefix) + GAP + TailClip(c.memory, b.memory) + GAP +
    RenderRelevant(c.notes, b.relevant) + GAP + RenderHistory(c.entries, c.rawHistory, b.history) + GAP
  }

  /** `_render_sections` and `_assemble_prompt`. */
  function Prompt(c: Content, b: Budgets): string {
    Strip(Front(c, b) + c.request)
  }

  method AssemblePrompt(c: Content, b: Budgets) returns (prompt: string)
    ensures prompt == Prompt(c, b)
  {
    hide Strip, RenderRelevant, RenderHistory, TailClip;
    var relevant := RenderRelevantMemory(c.notes, b.relevant);
    var history := RenderHistorySection(c.entries, c.rawHistory, b.history);
    prompt := Strip(TailClip(c.prefix, b.prefix) + GAP + TailClip(c.memory, b.memory) + GAP + relevant + GAP +
        history + GAP + c.request);
  }

  // ----- the request survives -----

  lemma {:induction false} LStripInFront(front: string, text: string)
    requires text != "" && !IsSpace(text[0])
    ensures LStrip(front + text) == LStrip(front) + text
  {
    if front == "" {
      assert front + text == text;
    } else {
      assert (front + text)[1..] == front[1..] + text;
      if IsSpace(front[0]) { LStripInFront(front[1..], text); }
    }
  }

  lemma {:induction false} RStripBehind(front: string, text: string)
    requires text != "" && !IsSpace(text[0])
    ensures RStrip(front + text) == front + RStrip(text) && RStrip(text) != ""
    decreases |text|
  {
    assert (front + text)[..|front + text| - 1] == front + text[..|text| - 1];
    if IsSpace(text[|text| - 1]) {
      assert text[..|text| - 1][0] == text[0];
      RStripBehind(front, text[..|text| - 1]);
    }
  }

  /** Whatever the budgets, the prompt ends with the whole request section, less
      its trailing white space only. */
  lemma {:induction false} RequestSurvives(c: Content, b: Budgets)
    requires c.request != "" && !IsSpace(c.request[0])
    ensures EndsWith(Prompt(c, b), RStrip(c.request))
  {
    hide Front, LStrip, RStrip;
    LStripInFront(Front(c, b), c.request);
    RStripBehind(LStrip(Front(c, b)), c.request);
  }

  // ----- the reduction loop -----

  datatype Config = Config(total: int, budgets: Budgets, floors: Budgets, order: seq<Section>)

  /** `_compute_section_floors` without overrides. */
  function Floors(b: Budgets): Budgets {
    Budgets(Max(20, b.prefix / 4), Max(20, b.memory / 4), Max(20, b.relevant / 4), Max(20, b.history / 4))
  }

  const DEFAULT_BUDGETS := Budgets(3600, 1600, 1200, 5200)
  const DEFAULT_REDUCTION_ORDER := [Relevant, History, Memory, Prefix]

  /** The first section of the order that is still above its floor. */
  function FirstReducible(floors: Budgets, order: seq<Section>, b: Budgets): (i: nat)
    ensures i <= |order|
    ensures i < |order| ==> Of(b, order[i]) > Of(floors, order[i])
    ensures forall j :: 0 <= j < i ==> Of(b, order[j]) <= Of(floors, order[j])
  {
    if order == [] || Of(b, order[0]) > Of(floors, order[0]) then 0 else FirstReducible(floors, order[1..], b) + 1
  }

  function Above(b: Budgets, floors: Budgets): nat {
    Max(0, b.prefix - floors.prefix) + Max(0, b.memory - floors.memory) +
    Max(0, b.relevant - floors.relevant) + Max(0, b.history - floors.history)
  }

  function Shrunk(cfg: Config, b: Budgets, i: nat, overflow: int): (r: Budgets)
    requires i < |cfg.order| && Of(b, cfg.order[i]) > Of(cfg.floors, cfg.order[i]) && overflow > 0
    ensures Above(r, cfg.floors) < Above(b, cfg.floors)
    ensures Of(cfg.floors, cfg.order[i]) <= Of(r, cfg.order[i]) < Of(b, cfg.order[i])
    ensures forall s :: s != cfg.order[i] ==> Of(r, s) == Of(b, s)
  {
    With(b, cfg.order[i], Max(Of(cfg.floors, cfg.order[i]), Of(b, cfg.order[i]) - overflow))
  }

  /** The budgets the loop ends with. */
  function Reduced(cfg: Config, c: Content, b: Budgets): Budgets
    decreases Above(b, cfg.floors)
  {
    var length := |Prompt(c, b)|;
    if length <= cfg.total then b
    else
      var i := FirstReducible(cfg.floors, cfg.order, b);
      if i == |cfg.order| then b else Reduced(cfg, c, Shrunk(cfg, b, i, length - cfg.total))
  }

  /** `build` with context reduction on. */
  method Build(cfg: Config, c: Content) returns (prompt: string, budgets: Budgets)
    ensures budgets == Reduced(cfg, c, cfg.budgets) && prompt == Prompt(c, budgets)
  {
    hide Prompt, Above, Shrunk, FirstReducible, Of;
    budgets := cfg.budgets;
    prompt := AssemblePrompt(c, budgets);
    while |prompt| > cfg.total
      invariant prompt == Prompt(c, budgets)
      invariant Reduced(cfg, c, budgets) == Reduced(cfg, c, cfg.budgets)
      decreases Above(budgets, cfg.floors)
    {
      var overflow := |prompt| - cfg.total;
      var i := FindReducible(cfg, budgets);
      if i == |cfg.order| {
        break;
      }
      budgets := Shrunk(cfg, budgets, i, overflow);
      prompt := AssemblePrompt(c, budgets);
    }
  }

  /** The inner for loop, up to its break. */
  method FindReducible(cfg: Config, budgets: Budgets) returns (i: nat)
    ensures i == FirstReducible(cfg.floors, cfg.order, budgets)
  {
    hide Of;
    i := 0;
    while i < |cfg.order| && Of(budgets, cfg.order[i]) <= Of(cfg.floors, cfg.order[i])
      invariant i <= |cfg.order|
      invariant i + FirstReducible(cfg.floors, cfg.order[i..], budgets) ==
                FirstReducible(cfg.floors, cfg.order, budgets)
    {
      assert cfg.order[i..][0] == cfg.order[i] && cfg.order[i..][1..] == cfg.order[i + 1..];
      i := i + 1;
    }
    FoundReducible(cfg, budgets, i);
  }

  lemma {:induction false} FoundReducible(cfg: Config, b: Budgets, i: nat)
    requires i <= |cfg.order| && i + FirstReducible(cfg.floors, cfg.order[i..], b) ==
             FirstReducible(cfg.floors, cfg.order, b)
    requires i < |cfg.order| ==> Of(b, cfg.order[i]) > Of(cfg.floors, cfg.order[i])
    ensures FirstReducible(cfg.floors, cfg.order, b) == i
  {
    hide Of;
    if i < |cfg.order| {
      assert cfg.order[i..][0] == cfg.order[i];
    } else {
      assert cfg.order[i..] == [];
    }
  }

  /** The loop ends with a prompt that fits or with every section of the order at
      its floor; budgets only shrink, and never below their floor. */
  lemma {:induction false} ReductionEnds(cfg: Config, c: Content, b: Budgets)
    ensures var r := Reduced(cfg, c, b);
            && (|Prompt(c, r)| <= cfg.total || forall i :: 0 <= i < |cfg.order| ==>
                Of(r, cfg.order[i]) <= Of(cfg.floors, cfg.order[i]))
            && forall s :: Of(r, s) <= Of(b, s) && (Of(r, s) < Of(b, s) ==> Of(r, s) >= Of(cfg.floors, s))
    decreases Above(b, cfg.floors)
  {
    hide Prompt, Of, Shrunk, Above, FirstReducible;
    var length := |Prompt(c, b)|;
    if length > cfg.total {
      var i := FirstReducible(cfg.floors, cfg.order, b);
      if i < |cfg.order| {
        ReductionEnds(cfg, c, Shrunk(cfg, b, i, length - cfg.total));
      }
    }
  }

  /** A section has shrunk only if every earlier section of the order is at its floor. */
  lemma {:induction false} ReductionFollowsOrder(cfg: Config, c: Content, b: Budgets, i: nat, j: nat)
    requires i < j < |cfg.order| && (forall k, l :: 0 <= k < l < |cfg.order| ==> cfg.order[k] != cfg.order[l])
    ensures Of(Reduced(cfg, c, b), cfg.order[j]) < Of(b, cfg.order[j]) ==>
              Of(Reduced(cfg, c, b), cfg.order[i]) <= Of(cfg.floors, cfg.order[i])
    decreases Above(b, cfg.floors)
  {
    hide Prompt, Of, Above, Shrunk, FirstReducible;
    var length := |Prompt(c, b)|;
    var k := FirstReducible(cfg.floors, cfg.order, b);
    if length > cfg.total && k < |cfg.order| {
      var next := Shrunk(cfg, b, k, length - cfg.total);
      ReductionEnds(cfg, c, next);
      if k == j {
        assert Of(next, cfg.order[i]) == Of(b, cfg.order[i]);
      } else {
        assert Of(next, cfg.order[j]) == Of(b, cfg.order[j]);
        ReductionFollowsOrder(cfg, c, next, i, j);
      }
    }
  }

  /** One turn of the loop: the first section of the order above its floor loses the
      overflow, or what it has above its floor if that is less. */
  lemma {:induction false} OneReduction(cfg: Config, c: Content, b: Budgets, i: nat)
    requires i < |cfg.order| && |Prompt(c, b)| > cfg.total
    requires Of(b, cfg.order[i]) > Of(cfg.floors, cfg.order[i])
    requires forall j :: 0 <= j < i ==> Of(b, cfg.order[j]) <= Of(cfg.floors, cfg.order[j])
    ensures var overflow, above := |Prompt(c, b)| - cfg.total, Of(b, cfg.order[i]) - Of(cfg.floors, cfg.order[i]);
            var lost := if overflow < above then overflow else above;
            Reduced(cfg, c, b) == Reduced(cfg, c, With(b, cfg.order[i], Of(b, cfg.order[i]) - lost))
  {
    hide Prompt, Of, With;
    assert FirstReducible(cfg.floors, cfg.order, b) == i;
  }

  // ----- the guarantee -----

  /** The budget a section cannot be reduced below. */
  function Least(cfg: Config, s: Section): int {
    if s in cfg.order then Min(Of(cfg.budgets, s), Of(cfg.floors, s)) else Of(cfg.budgets, s)
  }

  /** What relevant memory can take: its budget, but at least 23 characters for the
      empty one; with no budget left each note still takes four. */
  function RelevantRoom(budget: int, notes: nat): int {
    Max(23, if budget > 0 then budget else |RELEVANT_HEADER| + 4 * notes)
  }

  /** The least room the four sections and the separators need; an empty history
      takes 19 characters. */
  function LeastRoom(cfg: Config, c: Content): int {
    Max(0, Least(cfg, Prefix)) + Max(0, Least(cfg, Memory)) +
    RelevantRoom(Least(cfg, Relevant), |NoteTexts(c.notes)|) + Max(19, Least(cfg, History)) + 8
  }

  lemma {:induction false} OneCharacterNotes(texts: seq<string>)
    ensures LinesLength(Bulleted(texts, 1)) <= 4 * |texts|
    decreases |texts|
  {
    if texts != [] {
      OneCharacterNotes(texts[1..]);
      assert Bulleted(texts, 1)[1..] == Bulleted(texts[1..], 1);
    }
  }

  /** Without a budget notes are cut to one character each and never clipped. */
  lemma {:induction false} RelevantWithoutBudget(notes: seq<string>, budget: int)
    requires budget <= 0
    ensures |RenderRelevant(notes, budget)| <= RelevantRoom(budget, |NoteTexts(notes)|)
  {
    hide Join, Bulleted, LinesLength, NoteTexts;
    var texts := NoteTexts(notes);
    if texts == [] {
      UnderLength(RELEVANT_HEADER, ["- none"]);
      assert LinesLength(["- none"]) == 7 by { OneLine("- none"); }
    } else {
      ShareWithoutBudget(budget, |texts|);
      OneCharacterNotes(texts);
      UnderLength(RELEVANT_HEADER, Bulleted(texts, 1));
    }
  }

  lemma {:induction false} OneLine(line: string)
    ensures LinesLength([line]) == |line| + 1
  {
    assert [line][1..] == [];
  }

  lemma {:induction false} ShareWithoutBudget(budget: int, count: nat)
    requires budget <= 0 && count > 0
    ensures PerNoteBudget(budget, count) == 1
  {
  }

  /** Without a budget nothing of the history is kept. */
  lemma {:induction false} HistoryWithoutBudget(entries: seq<Entry>, raw: string, budget: int)
    requires budget <= 0
    ensures |RenderHistory(entries, raw, budget)| <= 19
    ensures entries != [] ==> RenderHistory(entries, raw, budget) == Under(TRANSCRIPT, [])
  {
    hide Join, KeepFrom, LinesLength;
    if entries == [] {
      UnderLength(TRANSCRIPT, ["- empty"]);
      OneLine("- empty");
    } else {
      KeptFits(entries, budget);
      UnderLength(TRANSCRIPT, KeepFrom(entries, budget));
      NoLines();
    }
  }

  lemma {:induction false} PromptBound(c: Content, b: Budgets)
    ensures |Prompt(c, b)| <=
            Max(0, b.prefix) + Max(0, b.memory) + RelevantRoom(b.relevant, |NoteTexts(c.notes)|) +
            Max(19, b.history) + 8 + |c.request|
  {
    hide RenderRelevant, RenderHistory, TailClip, Strip, NoteTexts;
    if b.relevant > 0 { RelevantBound(c.notes, b.relevant); } else { RelevantWithoutBudget(c.notes, b.relevant); }
    if b.history > 0 {
      HistoryBound(c.entries, c.rawHistory, b.history);
    } else {
      HistoryWithoutBudget(c.entries, c.rawHistory, b.history);
    }
    ClipBound(c.prefix, b.prefix);
    ClipBound(c.memory, b.memory);
  }

  lemma {:induction false} ClipBound(text: string, limit: int)
    ensures |TailClip(text, limit)| <= Max(0, limit)
  {
  }

  /** A section the order does not name keeps its budget. */
  lemma {:induction false} OthersKeepBudget(cfg: Config, c: Content, b: Budgets, s: Section)
    requires s !in cfg.order
    ensures Of(Reduced(cfg, c, b), s) == Of(b, s)
    decreases Above(b, cfg.floors)
  {
    hide Prompt, Of, Shrunk, Above, FirstReducible;
    var length := |Prompt(c, b)|;
    if length > cfg.total {
      var i := FirstReducible(cfg.floors, cfg.order, b);
      if i < |cfg.order| {
        OthersKeepBudget(cfg, c, Shrunk(cfg, b, i, length - cfg.total), s);
      }
    }
  }

  /** When every section of the order is at its floor, each has its least budget. */
  lemma {:induction false} AtLeast(cfg: Config, c: Content, s: Section)
    requires var r := Reduced(cfg, c, cfg.budgets);
             forall i :: 0 <= i < |cfg.order| ==> Of(r, cfg.order[i]) <= Of(cfg.floors, cfg.order[i])
    ensures Of(Reduced(cfg, c, cfg.budgets), s) == Least(cfg, s)
  {
    hide Of, Reduced;
    ReductionEnds(cfg, c, cfg.budgets);
    if s !in cfg.order { OthersKeepBudget(cfg, c, cfg.budgets, s); }
  }

  /** If the request leaves room for the sections at their least, the built prompt
      fits: for any order of any sections, and whatever floors and budgets. */
  lemma {:induction false} PromptFits(cfg: Config, c: Content)
    requires |c.request| <= cfg.total - LeastRoom(cfg, c)
    ensures |Prompt(c, Reduced(cfg, c, cfg.budgets))| <= cfg.total
  {
    hide Prompt, Reduced, LeastRoom;
    ReductionEnds(cfg, c, cfg.budgets);
    if |Prompt(c, Reduced(cfg, c, cfg.budgets))| > cfg.total { FloorsBind(cfg, c); }
  }

  lemma {:induction false} FloorsBind(cfg: Config, c: Content)
    requires var r := Reduced(cfg, c, cfg.budgets);
             forall i :: 0 <= i < |cfg.order| ==> Of(r, cfg.order[i]) <= Of(cfg.floors, cfg.order[i])
    ensures |Prompt(c, Reduced(cfg, c, cfg.budgets))| <= LeastRoom(cfg, c) + |c.request|
  {
    hide Prompt, Reduced, Least;
    AtLeast(cfg, c, Prefix);
    AtLeast(cfg, c, Memory);
    AtLeast(cfg, c, Relevant);
    AtLeast(cfg, c, History);
    PromptBound(c, Reduced(cfg, c, cfg.budgets));
  }

  /** The default configuration: floors 900, 400, 300 and 1300 leave a request of up
      to total_budget - 2908 characters. */
  lemma {:induction false} DefaultPromptFits(total: int, c: Content)
    requires |c.request| <= total - 2908
    ensures Floors(DEFAULT_BUDGETS) == Budgets(900, 400, 300, 1300)
    ensures var cfg := Config(total, DEFAULT_BUDGETS, Floors(DEFAULT_BUDGETS), DEFAULT_REDUCTION_ORDER);
            |Prompt(c, Reduced(cfg, c, cfg.budgets))| <= total
  {
    hide Prompt, Reduced;
    var cfg := Config(total, DEFAULT_BUDGETS, Floors(DEFAULT_BUDGETS), DEFAULT_REDUCTION_ORDER);
    assert cfg.order[0] == Relevant && cfg.order[1] == History && cfg.order[2] == Memory && cfg.order[3] == Prefix;
    PromptFits(cfg, c);
  }
}
