/** Reading a prompt line by line: every directive found names exactly the text its span slices out of the prompt. */
module PromptSpans {
  import opened Ordering
  import opened CompilerText

  datatype Directive = Directive(text: string, span: Span)

  datatype Section = NoSection | Deliverables | Must | Prohibition | AllowOnly | Stop

  datatype Parsed = Parsed(
    objective: Option<Directive>, deliverables: seq<Directive>, musts: seq<Directive>, prohibitions: seq<Directive>,
    allowOnly: seq<Directive>, budgetLines: seq<Directive>, deadline: Option<Directive>, stopConditions: seq<Directive>,
    skipped: nat)

  /**
   * The regular expressions: what each finds in a text. `lead` finds a place and what stands there, a header what
   * follows it, `chunks` the numbered items of a header's line.
   */
  datatype Patterns = Patterns(
    trim: string -> string, lead: string -> Option<(nat, string)>,
    budget: string -> Option<(nat, nat)>, startsDeadline: string -> bool, dated: string -> bool,
    stop: string -> Option<string>, deliverables: string -> Option<string>, chunks: string -> seq<string>,
    must: string -> Option<string>, prohibition: string -> Option<string>, allowOnly: string -> Option<string>,
    item: string -> Option<string>, marked: string -> bool)

  /** Whatever is found in a text is a piece of it. */
  ghost predicate FindsPieces(ps: Patterns) {
    && (forall s :: Occurs(s, ps.trim(s)))
    && (forall s :: ps.lead(s).Some? ==> OccursAt(s, ps.lead(s).value.1, ps.lead(s).value.0))
    && (forall s :: ps.stop(s).Some? ==> Occurs(s, ps.stop(s).value))
    && (forall s :: ps.deliverables(s).Some? ==> Occurs(s, ps.deliverables(s).value))
    && (forall s, i :: 0 <= i < |ps.chunks(s)| ==> Occurs(s, ps.chunks(s)[i]))
    && (forall s :: ps.item(s).Some? ==> Occurs(s, ps.item(s).value))
    && (forall s :: ps.budget(s).Some? ==> ps.budget(s).value.1 <= ps.budget(s).value.0)
  }

  lemma PieceOfPiece(a: string, b: string, c: string)
    requires Occurs(a, b) && Occurs(b, c)
    ensures Occurs(a, c)
  {
    var i :| 0 <= i && OccursAt(a, b, i);
    var j :| 0 <= j && OccursAt(b, c, j);
    assert b == a[i..i + |b|] && c == b[j..j + |c|];
    forall k | 0 <= k < |c|
      ensures a[i + j + k] == c[k]
    {
      assert c[k] == b[j + k] == a[i + (j + k)];
    }
    assert OccursAt(a, c, i + j);
  }

  ghost predicate Exact(source: string, d: Directive) {
    Slices(source, d.span, d.text)
  }

  ghost predicate AllExact(source: string, ds: seq<Directive>, max: nat) {
    forall i :: 0 <= i < |ds| ==> Exact(source, ds[i]) && 0 < |ds[i].text| <= max
  }

  /** Every directive slices back, none is empty, and none in a list is over the list's limit. */
  ghost predicate Faithful(source: string, r: Parsed) {
    && (r.objective.Some? ==> Exact(source, r.objective.value))
    && (r.deadline.Some? ==> Exact(source, r.deadline.value) && |r.deadline.value.text| <= 2000)
    && AllExact(source, r.deliverables, 2000) && AllExact(source, r.stopConditions, 2000)
    && AllExact(source, r.musts, 3000) && AllExact(source, r.prohibitions, 3000) && AllExact(source, r.allowOnly, 3000)
    && (forall i :: 0 <= i < |r.budgetLines| ==> Exact(source, r.budgetLines[i]))
  }

  // ----- What a line says -----

  /** What a line adds: a directive of a section, a budget line, a deadline, or a number of things left out. */
  datatype Finding =
    | Kept(section: Section, text: string)
    | Budgeted(text: string)
    | Due(text: string)
    | LeftOut(count: nat)

  function Limit(section: Section): nat {
    if section in {Must, Prohibition, AllowOnly} then 3000 else 2000
  }

  /** A directive, unless it is empty; one that is too long is left out and counted. */
  function Sized(section: Section, text: string): seq<Finding> {
    if |text| == 0 then [] else if |text| > Limit(section) then [LeftOut(1)] else [Kept(section, text)]
  }

  function SizedAll(section: Section, texts: seq<string>): seq<Finding> {
    if texts == [] then [] else SizedAll(section, texts[..|texts| - 1]) + Sized(section, texts[|texts| - 1])
  }

  /** The section a line opens, and what follows its header. */
  function Header(trimmed: string, ps: Patterns): Option<(Section, string)> {
    if ps.stop(trimmed).Some? then Some((Stop, ps.stop(trimmed).value))
    else if ps.deliverables(trimmed).Some? then Some((Deliverables, ps.deliverables(trimmed).value))
    else if ps.must(trimmed).Some? then Some((Must, ps.must(trimmed).value))
    else if ps.prohibition(trimmed).Some? then Some((Prohibition, ps.prohibition(trimmed).value))
    else if ps.allowOnly(trimmed).Some? then Some((AllowOnly, ps.allowOnly(trimmed).value))
    else None
  }

  /** The section a directive found outside any section belongs to. */
  function BareSection(text: string, ps: Patterns): Section {
    if ps.must(text).Some? then Must
    else if ps.prohibition(text).Some? then Prohibition
    else if ps.allowOnly(text).Some? then AllowOnly
    else NoSection
  }

  predicate IsAmount(trimmed: string, ps: Patterns) {
    ps.budget(trimmed).Some? || ps.startsDeadline(trimmed)
  }

  function AmountFindings(trimmed: string, ps: Patterns): seq<Finding>
    requires IsAmount(trimmed, ps) && (ps.budget(trimmed).Some? ==>
        ps.budget(trimmed).value.1 <= ps.budget(trimmed).value.0)
  {
    if ps.budget(trimmed).Some? then
      var (pairs, landed) := ps.budget(trimmed).value;
      if pairs == 0 then [LeftOut(1)]
      else if landed == 0 then [LeftOut(pairs)]
      else [LeftOut(pairs - landed), Budgeted(trimmed)]
    else if ps.dated(trimmed) && |trimmed| <= 2000 then [Due(trimmed)]
    else [LeftOut(1)]
  }

  function HeaderFindings(trimmed: string, section: Section, rest: string, ps: Patterns): seq<Finding> {
    var stripped := ps.trim(rest);
    if stripped == "" then []
    else if section == Deliverables then SizedAll(Deliverables, ps.chunks(stripped))
    else if section == Stop then Sized(Stop, stripped)
    else Sized(section, trimmed)
  }

  function ItemFindings(text: string, section: Section, ps: Patterns): seq<Finding> {
    if ps.item(text).None? then [LeftOut(1)]
    else
      var item := ps.trim(ps.item(text).value);
      if section == Deliverables && BareSection(item, ps) != NoSection then [LeftOut(1)] else Sized(section, item)
  }

  function BareText(text: string, trimmed: string, ps: Patterns): string {
    if ps.item(text).Some? then ps.trim(ps.item(text).value) else trimmed
  }

  function BareFindings(text: string, trimmed: string, ps: Patterns): seq<Finding> {
    var bare := BareText(text, trimmed, ps);
    if BareSection(bare, ps) != NoSection then Sized(BareSection(bare, ps), bare)
    else if ps.marked(bare) then [LeftOut(1)]
    else []
  }

  /** The objective stands in this line. */
  predicate CoversObjective(line: Line, objective: Option<Directive>) {
    objective.Some? && objective.value.span.start >= line.start
    && objective.value.span.end <= line.start + |line.text|
  }

  /** What a line adds, read in `section`. */
  function LineFindings(line: Line, section: Section, objective: Option<Directive>, ps: Patterns): seq<Finding>
    requires ps.budget(ps.trim(line.text)).Some? ==>
      ps.budget(ps.trim(line.text)).value.1 <= ps.budget(ps.trim(line.text)).value.0
  {
    var trimmed := ps.trim(line.text);
    if trimmed == "" then []
    else if IsAmount(trimmed, ps) then AmountFindings(trimmed, ps)
    else if Header(trimmed, ps).Some? then
      HeaderFindings(trimmed, Header(trimmed, ps).value.0, Header(trimmed, ps).value.1, ps)
    else if section != NoSection then ItemFindings(line.text, section, ps)
    else if CoversObjective(line, objective) then []
    else BareFindings(line.text, trimmed, ps)
  }

  /** The section a line leaves open: a header its own, an amount none; any other line changes nothing. */
  function SectionAfter(line: Line, section: Section, ps: Patterns): Section {
    var trimmed := ps.trim(line.text);
    if trimmed == "" then section
    else if IsAmount(trimmed, ps) then NoSection
    else if Header(trimmed, ps).Some? then Header(trimmed, ps).value.0
    else section
  }

  function OpenSection(lines: seq<Line>, ps: Patterns): Section {
    if lines == [] then NoSection
    else SectionAfter(lines[|lines| - 1], OpenSection(lines[..|lines| - 1], ps), ps)
  }

  ghost function AllFindings(lines: seq<Line>, objective: Option<Directive>, ps: Patterns): seq<Finding>
    requires FindsPieces(ps)
  {
    if lines == [] then []
    else
      var front, last := lines[..|lines| - 1], lines[|lines| - 1];
      AllFindings(front, objective, ps) + LineFindings(last, OpenSection(front, ps), objective, ps)
  }

  // ----- What was read, found by found -----

  function Texts(ds: seq<Directive>): seq<string> {
    if ds == [] then [] else Texts(ds[..|ds| - 1]) + [ds[|ds| - 1].text]
  }

  /** The directives of a section among the findings, in order. */
  function KeptIn(fs: seq<Finding>, section: Section): seq<string> {
    if fs == [] then []
    else
      var front, last := KeptIn(fs[..|fs| - 1], section), fs[|fs| - 1];
      if last.Kept? && last.section == section then front + [last.text] else front
  }

  function BudgetedIn(fs: seq<Finding>): seq<string> {
    if fs == [] then []
    else
      var front, last := BudgetedIn(fs[..|fs| - 1]), fs[|fs| - 1];
      if last.Budgeted? then front + [last.text] else front
  }

  function LastDue(fs: seq<Finding>): Option<string> {
    if fs == [] then None
    else if fs[|fs| - 1].Due? then Some(fs[|fs| - 1].text)
    else LastDue(fs[..|fs| - 1])
  }

  function LeftOutIn(fs: seq<Finding>): nat {
    if fs == [] then 0
    else LeftOutIn(fs[..|fs| - 1]) + (if fs[|fs| - 1].LeftOut? then fs[|fs| - 1].count else 0)
  }

  /** A section's directives are its findings, in order. */
  ghost predicate HoldsKept(r: Parsed, fs: seq<Finding>) {
    && Texts(r.musts) == KeptIn(fs, Must) && Texts(r.prohibitions) == KeptIn(fs, Prohibition)
    && Texts(r.allowOnly) == KeptIn(fs, AllowOnly) && Texts(r.stopConditions) == KeptIn(fs, Stop)
    && Texts(r.deliverables) == KeptIn(fs, Deliverables)
  }

  /** Each finding is where it belongs, in order, and everything left out is counted. */
  ghost predicate Holds(r: Parsed, fs: seq<Finding>) {
    && HoldsKept(r, fs) && Texts(r.budgetLines) == BudgetedIn(fs)
    && (if LastDue(fs).Some? then r.deadline.Some? && r.deadline.value.text == LastDue(fs).value else r.deadline.None?)
    && r.skipped == LeftOutIn(fs)
  }

  lemma TextsMore(ds: seq<Directive>, d: Directive)
    ensures Texts(ds + [d]) == Texts(ds) + [d.text]
  {
    assert (ds + [d])[..|ds|] == ds;
  }

  lemma KeptMore(fs: seq<Finding>, f: Finding, s: Section)
    ensures KeptIn(fs + [f], s) == if f.Kept? && f.section == s then KeptIn(fs, s) + [f.text] else KeptIn(fs, s)
  {
    assert (fs + [f])[..|fs|] == fs;
  }

  lemma OthersKept(r: Parsed, fs: seq<Finding>, f: Finding)
    requires HoldsKept(r, fs) && !f.Kept?
    ensures HoldsKept(r, fs + [f])
  {
    KeptMore(fs, f, Must);
    KeptMore(fs, f, Prohibition);
    KeptMore(fs, f, AllowOnly);
    KeptMore(fs, f, Stop);
    KeptMore(fs, f, Deliverables);
  }

  function ListOf(r: Parsed, section: Section): seq<Directive> {
    match section
    case Must => r.musts
    case Prohibition => r.prohibitions
    case AllowOnly => r.allowOnly
    case Stop => r.stopConditions
    case Deliverables => r.deliverables
    case NoSection => []
  }

  function WithList(r: Parsed, section: Section, list: seq<Directive>): Parsed {
    match section
    case Must => r.(musts := list)
    case Prohibition => r.(prohibitions := list)
    case AllowOnly => r.(allowOnly := list)
    case Stop => r.(stopConditions := list)
    case Deliverables => r.(deliverables := list)
    case NoSection => r
  }

  lemma ListedKept(r: Parsed, fs: seq<Finding>, section: Section, text: string, list: seq<Directive>)
    requires HoldsKept(r, fs) && section != NoSection && Texts(list) == Texts(ListOf(r, section)) + [text]
    ensures HoldsKept(WithList(r, section, list), fs + [Kept(section, text)])
  {
    KeptMore(fs, Kept(section, text), Must);
    KeptMore(fs, Kept(section, text), Prohibition);
    KeptMore(fs, Kept(section, text), AllowOnly);
    KeptMore(fs, Kept(section, text), Stop);
    KeptMore(fs, Kept(section, text), Deliverables);
  }

  /** A pushed directive is held where its section says, or left out and counted, or nothing at all. */
  lemma PushedHolds(
    r: Parsed, fs: seq<Finding>, section: Section, text: string, list: seq<Directive>, skipped: nat)
    requires Holds(r, fs) && section != NoSection
    requires if 0 < |text| <= Limit(section) then Texts(list) == Texts(ListOf(r, section)) + [text]
             else list == ListOf(r, section)
    requires skipped == if |text| > Limit(section) then 1 else 0
    ensures Holds(WithList(r, section, list).(skipped := r.skipped + skipped), fs + Sized(section, text))
  {
    if |text| == 0 {
      assert fs + Sized(section, text) == fs;
    } else if |text| > Limit(section) {
      HoldsSkipped(r, fs, 1);
    } else {
      ListedKept(r, fs, section, text, list);
      FindingsMore(fs, Kept(section, text));
    }
  }

  lemma FindingsMore(fs: seq<Finding>, f: Finding)
    ensures BudgetedIn(fs + [f]) == BudgetedIn(fs) + (if f.Budgeted? then [f.text] else [])
    ensures LastDue(fs + [f]) == if f.Due? then Some(f.text) else LastDue(fs)
    ensures LeftOutIn(fs + [f]) == LeftOutIn(fs) + (if f.LeftOut? then f.count else 0)
  {
    assert (fs + [f])[..|fs|] == fs;
  }

  lemma HoldsSkipped(r: Parsed, fs: seq<Finding>, count: nat)
    requires Holds(r, fs)
    ensures Holds(r.(skipped := r.skipped + count), fs + [LeftOut(count)])
  {
    FindingsMore(fs, LeftOut(count));
    OthersKept(r, fs, LeftOut(count));
  }

  lemma HoldsBudgeted(r: Parsed, fs: seq<Finding>, d: Directive)
    requires Holds(r, fs)
    ensures Holds(r.(budgetLines := r.budgetLines + [d]), fs + [Budgeted(d.text)])
  {
    TextsMore(r.budgetLines, d);
    FindingsMore(fs, Budgeted(d.text));
    OthersKept(r, fs, Budgeted(d.text));
  }

  lemma HoldsDue(r: Parsed, fs: seq<Finding>, d: Directive)
    requires Holds(r, fs)
    ensures Holds(r.(deadline := Some(d)), fs + [Due(d.text)])
  {
    FindingsMore(fs, Due(d.text));
    OthersKept(r, fs, Due(d.text));
  }

  /**
   * No directive vanishes silently: a line that adds nothing is blank, a header with nothing after it, an item with
   * nothing in it, or stands outside every section and either holds the objective or has no marker of a directive.
   */
  lemma OnlyTheseLinesAddNothing(line: Line, section: Section, objective: Option<Directive>, ps: Patterns)
    requires FindsPieces(ps)
    requires LineFindings(line, section, objective, ps) == []
    ensures var trimmed := ps.trim(line.text);
            var starts := Header(trimmed, ps);
            || trimmed == ""
            || (starts.Some? && ps.trim(starts.value.1) == "")
            || (starts.Some? && starts.value.0 == Deliverables &&
                forall i :: 0 <= i < |ps.chunks(ps.trim(starts.value.1))| ==>
                  ps.chunks(ps.trim(starts.value.1))[i] == "")
            || (ps.item(line.text).Some? && ps.trim(ps.item(line.text).value) == "")
            || (section == NoSection && CoversObjective(line, objective))
            || (section == NoSection && BareSection(BareText(line.text, trimmed, ps), ps) == NoSection
                && !ps.marked(BareText(line.text, trimmed, ps)))
  {
    var trimmed := ps.trim(line.text);
    if trimmed != "" && !IsAmount(trimmed, ps) && Header(trimmed, ps).Some? {
      var (starts, rest) := Header(trimmed, ps).value;
      if starts == Deliverables && ps.trim(rest) != "" { NothingSized(Deliverables, ps.chunks(ps.trim(rest))); }
    }
  }

  lemma {:induction false} NothingSized(section: Section, texts: seq<string>)
    requires SizedAll(section, texts) == []
    ensures forall i :: 0 <= i < |texts| ==> texts[i] == ""
  {
    if texts != [] {
      NothingSized(section, texts[..|texts| - 1]);
    }
  }

  /**
   * Under which name a line's directive is kept: a requirement's header keeps the whole line, a stop header what
   * follows it, an item its text in the section under way, and a bare directive its text by its own marker.
   */
  lemma KeptUnder(line: Line, section: Section, objective: Option<Directive>, ps: Patterns, kept: Section, text: string)
    requires FindsPieces(ps) && kept in {Must, Prohibition, AllowOnly, Stop}
    ensures var trimmed := ps.trim(line.text);
            var amount := ps.budget(trimmed).Some? || ps.startsDeadline(trimmed);
            var stops, delivers := ps.stop(trimmed).Some?, ps.deliverables(trimmed).Some?;
            var musts, prohibits := ps.must(trimmed).Some?, ps.prohibition(trimmed).Some?;
            var plain := !amount && !stops && !delivers && !musts && !prohibits && ps.allowOnly(trimmed).None?;
            var bare := if ps.item(line.text).Some? then ps.trim(ps.item(line.text).value) else trimmed;
            Kept(kept, text) in LineFindings(line, section, objective, ps) <==>
            && trimmed != "" && 0 < |text| <= (if kept == Stop then 2000 else 3000)
            && (|| (kept == Stop && !amount && stops && text == ps.trim(ps.stop(trimmed).value))
               || (kept == Must && !amount && !stops && !delivers && musts && text == trimmed
                   && ps.trim(ps.must(trimmed).value) != "")
               || (kept == Prohibition && !amount && !stops && !delivers && !musts && prohibits && text == trimmed
                   && ps.trim(ps.prohibition(trimmed).value) != "")
               || (kept == AllowOnly && !amount && !stops && !delivers && !musts && !prohibits
                   && ps.allowOnly(trimmed).Some? && text == trimmed && ps.trim(ps.allowOnly(trimmed).value) != "")
               || (plain && section == kept && ps.item(line.text).Some? && text == bare)
               || (plain && section == NoSection && !CoversObjective(line, objective) && text == bare
                   && kept == (if ps.must(bare).Some? then Must else if ps.prohibition(bare).Some? then Prohibition
                               else if ps.allowOnly(bare).Some? then AllowOnly else NoSection)))
  {
    var trimmed := ps.trim(line.text);
    if trimmed != "" && !IsAmount(trimmed, ps) {
      if Header(trimmed, ps).Some? {
        HeaderKeeps(trimmed, ps, kept, text);
      } else if section != NoSection {
        ItemKeeps(line.text, section, ps, kept, text);
      } else if !CoversObjective(line, objective) {
        SizedKeeps(BareSection(BareText(line.text, trimmed, ps), ps), BareText(line.text, trimmed, ps), kept, text);
      }
    }
  }

  lemma SizedKeeps(section: Section, text: string, kept: Section, t: string)
    ensures Kept(kept, t) in Sized(section, text) <==> kept == section && t == text && 0 < |t| <= Limit(section)
  {
  }

  lemma HeaderKeeps(trimmed: string, ps: Patterns, kept: Section, text: string)
    requires Header(trimmed, ps).Some? && kept in {Must, Prohibition, AllowOnly, Stop}
    ensures var (starts, rest) := Header(trimmed, ps).value;
            Kept(kept, text) in HeaderFindings(trimmed, starts, rest, ps) <==>
            && kept == starts && 0 < |text| <= Limit(kept) && ps.trim(rest) != ""
            && text == if starts == Stop then ps.trim(rest) else trimmed
  {
    var (starts, rest) := Header(trimmed, ps).value;
    if starts == Deliverables {
      SizedStays(Deliverables, ps.chunks(ps.trim(rest)), kept, text);
    } else {
      SizedKeeps(starts, if starts == Stop then ps.trim(rest) else trimmed, kept, text);
    }
  }

  lemma ItemKeeps(text: string, section: Section, ps: Patterns, kept: Section, t: string)
    requires section != NoSection && kept in {Must, Prohibition, AllowOnly, Stop}
    ensures Kept(kept, t) in ItemFindings(text, section, ps) <==>
            ps.item(text).Some? && kept == section && t == ps.trim(ps.item(text).value) && 0 < |t| <= Limit(kept)
  {
    if ps.item(text).Some? { SizedKeeps(section, ps.trim(ps.item(text).value), kept, t); }
  }

  lemma {:induction false} SizedStays(section: Section, texts: seq<string>, kept: Section, text: string)
    ensures Kept(kept, text) in SizedAll(section, texts) <==>
            kept == section && text in texts && 0 < |text| <= Limit(section)
  {
    if texts != [] {
      SizedStays(section, texts[..|texts| - 1], kept, text);
      assert texts == texts[..|texts| - 1] + [texts[|texts| - 1]];
    }
  }

  /** `pushDirective`, answering how many directives were skipped. */
  method Push(ghost source: string, list: seq<Directive>, text: string, line: Line, max: nat)
    returns (next: seq<Directive>, skipped: nat)
    requires IsLineOf(source, line) && Occurs(line.text, text) && AllExact(source, list, max)
    ensures AllExact(source, next, max) && list <= next && |next| <= |list| + 1
    ensures |next| > |list| <==> 0 < |text| <= max
    ensures if 0 < |text| <= max then Texts(next) == Texts(list) + [text] else next == list
    ensures skipped == if |text| > max then 1 else 0
  {
    next, skipped := list, 0;
    if |text| == 0 {
      return;
    }
    if |text| > max {
      return list, 1;
    }
    var span := DirectiveSpan(source, line, text);
    next := list + [Directive(text, span)];
    TextsMore(list, Directive(text, span));
  }

  /** The leading sentence of the first line that is not blank, or of the prompt, or that line itself. */
  method Objective(source: string, lines: seq<Line>, ps: Patterns) returns (objective: Option<Directive>)
    requires FindsPieces(ps) && forall i :: 0 <= i < |lines| ==> IsLineOf(source, lines[i])
    ensures objective.Some? <==> exists i :: 0 <= i < |lines| && ps.trim(lines[i].text) != ""
    ensures objective.Some? ==> Exact(source, objective.value)
    ensures objective.Some? ==>
              exists i :: 0 <= i < |lines| && ps.trim(lines[i].text) != ""
                && (forall j :: 0 <= j < i ==> ps.trim(lines[j].text) == "")
                && objective.value.text ==
                   if ps.lead(ps.trim(lines[i].text)).Some? then ps.lead(ps.trim(lines[i].text)).value.1
                   else if ps.lead(source).Some? then ps.lead(source).value.1
                   else ps.trim(lines[i].text)
  {
    var n := 0;
    while n < |lines| && ps.trim(lines[n].text) == ""
      invariant n <= |lines| && forall i :: 0 <= i < n ==> ps.trim(lines[i].text) == ""
    {
      n := n + 1;
    }
    if n == |lines| {
      return None;
    }
    objective := ObjectiveIn(source, lines[n], ps);
  }

  /** The objective, given the first line that is not blank. */
  method ObjectiveIn(source: string, line: Line, ps: Patterns) returns (objective: Option<Directive>)
    requires FindsPieces(ps) && IsLineOf(source, line)
    ensures objective.Some? && Exact(source, objective.value)
    ensures objective.value.text ==
            if ps.lead(ps.trim(line.text)).Some? then ps.lead(ps.trim(line.text)).value.1
            else if ps.lead(source).Some? then ps.lead(source).value.1
            else ps.trim(line.text)
  {
    var trimmed := ps.trim(line.text);
    var inLine, anywhere := ps.lead(trimmed), ps.lead(source);
    var span := DirectiveSpan(source, line, trimmed);
    if inLine.Some? {
      var text := inLine.value.1;
      var rel := IndexOf(trimmed, text);
      SliceOfSlice(source, span.start, span.end, rel, rel + |text|);
      objective := Some(Directive(text, Span(span.start + rel, span.start + rel + |text|)));
    } else if anywhere.Some? {
      var (at, text) := anywhere.value;
      objective := Some(Directive(text, Span(at, at + |text|)));
    } else {
      objective := Some(Directive(trimmed, span));
    }
  }

  /** A directive of one of the four list sections. */
  method PushTo(ghost source: string, r: Parsed, section: Section, text: string, line: Line, ghost fs: seq<Finding>)
    returns (next: Parsed)
    requires Faithful(source, r) && IsLineOf(source, line) && Occurs(line.text, text)
    requires Holds(r, fs) && section != NoSection
    ensures Faithful(source, next) && next.objective == r.objective
    ensures Holds(next, fs + Sized(section, text))
  {
    var list, skipped := Push(source, ListOf(r, section), text, line, Limit(section));
    PushedHolds(r, fs, section, text, list, skipped);
    FaithfulWith(source, r, section, list, r.skipped + skipped);
    next := WithList(r, section, list).(skipped := r.skipped + skipped);
  }

  lemma FaithfulWith(source: string, r: Parsed, section: Section, list: seq<Directive>, skipped: nat)
    requires Faithful(source, r) && AllExact(source, list, Limit(section))
    ensures Faithful(source, WithList(r, section, list).(skipped := skipped))
  {
  }

  lemma BudgetHolds(r: Parsed, fs: seq<Finding>, count: nat, d: Directive)
    requires Holds(r, fs)
    ensures Holds(r.(skipped := r.skipped + count, budgetLines := r.budgetLines + [d]),
                  fs + [LeftOut(count), Budgeted(d.text)])
  {
    HoldsSkipped(r, fs, count);
    HoldsBudgeted(r.(skipped := r.skipped + count), fs + [LeftOut(count)], d);
    assert fs + [LeftOut(count), Budgeted(d.text)] == fs + [LeftOut(count)] + [Budgeted(d.text)];
  }

  lemma FaithfulBudget(source: string, r: Parsed, d: Directive, skipped: nat)
    requires Faithful(source, r) && Exact(source, d)
    ensures Faithful(source, r.(skipped := skipped, budgetLines := r.budgetLines + [d]))
  {
  }

  lemma OneMoreSized(fs: seq<Finding>, section: Section, pieces: seq<string>, i: nat)
    requires i < |pieces|
    ensures fs + SizedAll(section, pieces[..i]) + Sized(section, pieces[i]) == fs + SizedAll(section, pieces[..i + 1])
  {
    assert pieces[..i + 1][..i] == pieces[..i];
  }

  /** The line of a deliverables header lists its first items. */
  method PushChunks(ghost source: string, r: Parsed, rest: string, line: Line, ps: Patterns, ghost fs: seq<Finding>)
    returns (next: Parsed)
    requires FindsPieces(ps) && Faithful(source, r) && IsLineOf(source, line) && Occurs(line.text, rest)
    requires Holds(r, fs)
    ensures Faithful(source, next) && next.objective == r.objective
    ensures Holds(next, fs + SizedAll(Deliverables, ps.chunks(rest)))
  {
    next := r;
    var chunks := ps.chunks(rest);
    assert fs + SizedAll(Deliverables, chunks[..0]) == fs;
    for i := 0 to |chunks|
      invariant Faithful(source, next) && next.objective == r.objective
      invariant Holds(next, fs + SizedAll(Deliverables, chunks[..i]))
    {
      PieceOfPiece(line.text, rest, chunks[i]);
      next := PushTo(source, next, Deliverables, chunks[i], line, fs + SizedAll(Deliverables, chunks[..i]));
      OneMoreSized(fs, Deliverables, chunks, i);
    }
    assert chunks[..|chunks|] == chunks;
  }

  /** A line naming budgets: each it understands counts, and the line is kept when there is one. */
  method ReadBudget(
    ghost source: string, r: Parsed, line: Line, trimmed: string, ps: Patterns, ghost fs: seq<Finding>)
    returns (next: Parsed)
    requires FindsPieces(ps) && Faithful(source, r) && IsLineOf(source, line) && Occurs(line.text, trimmed)
    requires ps.budget(trimmed).Some? && Holds(r, fs)
    ensures Faithful(source, next) && next.objective == r.objective
    ensures Holds(next, fs + AmountFindings(trimmed, ps))
  {
    var (pairs, landed) := ps.budget(trimmed).value;
    if pairs == 0 {
      HoldsSkipped(r, fs, 1);
      return r.(skipped := r.skipped + 1);
    }
    var skipped := r.skipped + (pairs - landed);
    if landed > 0 {
      var span := DirectiveSpan(source, line, trimmed);
      BudgetHolds(r, fs, pairs - landed, Directive(trimmed, span));
      FaithfulBudget(source, r, Directive(trimmed, span), skipped);
      next := r.(skipped := skipped, budgetLines := r.budgetLines + [Directive(trimmed, span)]);
    } else {
      HoldsSkipped(r, fs, pairs);
      next := r.(skipped := skipped);
    }
  }

  /** A line naming a deadline: the last one that holds a date counts. */
  method ReadDeadline(
    ghost source: string, r: Parsed, line: Line, trimmed: string, ps: Patterns, ghost fs: seq<Finding>)
    returns (next: Parsed)
    requires FindsPieces(ps) && Faithful(source, r) && IsLineOf(source, line) && Occurs(line.text, trimmed)
    requires ps.budget(trimmed).None? && ps.startsDeadline(trimmed) && Holds(r, fs)
    ensures Faithful(source, next) && next.objective == r.objective
    ensures Holds(next, fs + AmountFindings(trimmed, ps))
  {
    if !ps.dated(trimmed) || |trimmed| > 2000 {
      HoldsSkipped(r, fs, 1);
      next := r.(skipped := r.skipped + 1);
    } else {
      var span := DirectiveSpan(source, line, trimmed);
      HoldsDue(r, fs, Directive(trimmed, span));
      next := r.(deadline := Some(Directive(trimmed, span)));
    }
  }

  /** A header's line: the text after it, or for requirements the whole line. */
  method ReadHeader(ghost source: string, r: Parsed, line: Line, trimmed: string, section: Section, rest: string,
      ps: Patterns, ghost fs: seq<Finding>)
    returns (next: Parsed)
    requires FindsPieces(ps) && Faithful(source, r) && IsLineOf(source, line) && Occurs(line.text, trimmed)
    requires Header(trimmed, ps) == Some((section, rest)) && Holds(r, fs)
    ensures Faithful(source, next) && next.objective == r.objective
    ensures Holds(next, fs + HeaderFindings(trimmed, section, rest, ps))
  {
    var stripped := ps.trim(rest);
    if stripped == "" {
      assert fs + HeaderFindings(trimmed, section, rest, ps) == fs;
      return r;
    }
    if section == Stop || section == Deliverables {
      PieceOfPiece(trimmed, rest, stripped);
      PieceOfPiece(line.text, trimmed, stripped);
      if section == Stop {
        next := PushTo(source, r, Stop, stripped, line, fs);
      } else {
        next := PushChunks(source, r, stripped, line, ps, fs);
      }
    } else {
      next := PushTo(source, r, section, trimmed, line, fs);
    }
  }

  /** An item of the section under way; anything else in it is skipped. */
  method ReadItem(
    ghost source: string, r: Parsed, line: Line, section: Section, ps: Patterns, ghost fs: seq<Finding>)
    returns (next: Parsed)
    requires FindsPieces(ps) && Faithful(source, r) && IsLineOf(source, line)
    requires section != NoSection && Holds(r, fs)
    ensures Faithful(source, next) && next.objective == r.objective
    ensures Holds(next, fs + ItemFindings(line.text, section, ps))
  {
    HoldsSkipped(r, fs, 1);
    var item := ps.item(line.text);
    if item.None? {
      return r.(skipped := r.skipped + 1);
    }
    var text := ps.trim(item.value);
    PieceOfPiece(line.text, item.value, text);
    if section == Deliverables && BareSection(text, ps) != NoSection {
      next := r.(skipped := r.skipped + 1);
    } else {
      next := PushTo(source, r, section, text, line, fs);
    }
  }

  /** Outside any section: a bare directive, unless the line holds the objective. */
  method ReadBare(ghost source: string, r: Parsed, line: Line, trimmed: string, ps: Patterns, ghost fs: seq<Finding>)
    returns (next: Parsed)
    requires FindsPieces(ps) && Faithful(source, r) && IsLineOf(source, line) && Occurs(line.text, trimmed)
    requires Holds(r, fs)
    ensures Faithful(source, next) && next.objective == r.objective
    ensures Holds(next, fs + if CoversObjective(line, r.objective) then [] else BareFindings(line.text, trimmed, ps))
  {
    next := r;
    assert fs + [] == fs;
    if !CoversObjective(line, r.objective) {
      var item := ps.item(line.text);
      var bare := trimmed;
      if item.Some? {
        bare := ps.trim(item.value);
        PieceOfPiece(line.text, item.value, bare);
      }
      var section := BareSection(bare, ps);
      if section != NoSection {
        next := PushTo(source, r, section, bare, line, fs);
      } else if ps.marked(bare) {
        HoldsSkipped(r, fs, 1);
        next := r.(skipped := r.skipped + 1);
      }
    }
  }

  /** One line that is not blank, in the section under way. */
  method ReadLine(ghost source: string, r: Parsed, line: Line, section: Section, ps: Patterns, ghost fs: seq<Finding>)
    returns (next: Parsed, after: Section)
    requires FindsPieces(ps) && Faithful(source, r) && IsLineOf(source, line) && Holds(r, fs)
    ensures Faithful(source, next) && next.objective == r.objective && after == SectionAfter(line, section, ps)
    ensures Holds(next, fs + LineFindings(line, section, r.objective, ps))
  {
    next, after := r, section;
    var trimmed := ps.trim(line.text);
    if trimmed == "" {
      assert fs + LineFindings(line, section, r.objective, ps) == fs;
    } else if ps.budget(trimmed).Some? {
      after := NoSection;
      next := ReadBudget(source, r, line, trimmed, ps, fs);
    } else if ps.startsDeadline(trimmed) {
      after := NoSection;
      next := ReadDeadline(source, r, line, trimmed, ps, fs);
    } else if Header(trimmed, ps).Some? {
      var (starts, rest) := Header(trimmed, ps).value;
      after := starts;
      next := ReadHeader(source, r, line, trimmed, starts, rest, ps, fs);
    } else if section != NoSection {
      next := ReadItem(source, r, line, section, ps, fs);
    } else {
      next := ReadBare(source, r, line, trimmed, ps, fs);
    }
  }

  /** The lines in order, each in the section the ones before it leave open. */
  method ReadLines(ghost source: string, lines: seq<Line>, objective: Option<Directive>, ps: Patterns)
    returns (r: Parsed)
    requires FindsPieces(ps) && forall i :: 0 <= i < |lines| ==> IsLineOf(source, lines[i])
    requires objective.Some? ==> Exact(source, objective.value)
    ensures Faithful(source, r) && r.objective == objective && Holds(r, AllFindings(lines, objective, ps))
  {
    r := Parsed(objective, [], [], [], [], [], None, [], 0);
    var section := NoSection;
    for n := 0 to |lines|
      invariant Faithful(source, r) && r.objective == objective
      invariant section == OpenSection(lines[..n], ps) && Holds(r, AllFindings(lines[..n], objective, ps))
    {
      assert lines[..n + 1][..n] == lines[..n];
      r, section := ReadLine(source, r, lines[n], section, ps, AllFindings(lines[..n], objective, ps));
    }
    assert lines[..|lines|] == lines;
  }

  /**
   * However the prompt is written, its directives are what its lines add, each in its place and in order, with
   * everything left out counted; each is the exact text its span slices out of the prompt; and there is an objective
   * unless the prompt is blank.
   */
  method ParsePrompt(source: string, ps: Patterns) returns (r: Parsed, ghost lines: seq<Line>)
    requires FindsPieces(ps)
    ensures Chained(source, lines)
    ensures if source == "" then lines == [] else lines != [] && EndsSource(source, lines[|lines| - 1])
    ensures Faithful(source, r) && Holds(r, AllFindings(lines, r.objective, ps))
    ensures r.objective.Some? <==> exists i :: 0 <= i < |lines| && ps.trim(lines[i].text) != ""
  {
    var split := SplitLines(source);
    lines := split;
    var objective := Objective(source, split, ps);
    r := ReadLines(source, split, objective, ps);
  }
}
