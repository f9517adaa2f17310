/** The "Download PDF" export: a title, then every category (keys ascending) as a heading
    followed by its prompts, laid out top to bottom with a cursor that starts a new page
    whenever the next block would cross the bottom margin. Text wrapping and measuring belong
    to the PDF library and enter as the `measure` function of the page. */
module PdfExport {
  import opened Types
  import opened Grouping

  const Margin := 15
  const Title := "My Prompt Vault"
  const FileName := "prompt-vault.pdf"
  const SeparatorHeight := 5
  const CategoryGap := 5
  const TitleSpace := 10
  const HeadingSpace := 5
  const BodySpace := 8

  datatype Style = Normal | Bold | Italic | BoldItalic
  datatype Font = Font(size: nat, style: Style)

  /** The font of a new document, before anything sets one. */
  const DefaultFont := Font(16, Normal)
  const TitleFont := Font(22, Bold)
  const HeadingFont := Font(16, Bold)
  const BodyFont := Font(11, Normal)

  /** The drawing calls the export makes on the document, in order. */
  datatype Op = AddPage | Text(text: string, font: Font, y: int) | Line(y: int) | Save(name: string)

  /** Which font a block is wrapped and measured in: the one left set by the previous block
      (what the code does) or the block's own. */
  datatype MeasureAt = PreviousFont | OwnFont

  /** Page geometry and the library's text measurement: the height of a text wrapped to the
      content width in a given font. */
  datatype Page = Page(height: int, measure: (string, Font) -> nat, at: MeasureAt)

  /** One unit of layout: a text block, an unchecked gap, or a separator rule. */
  datatype Step = Write(text: string, font: Font, spaceAfter: nat) | Gap(amount: nat) | Separator

  /** The layout state: the cursor, the font last set, and the calls made so far. */
  datatype Layout = Layout(y: int, font: Font, ops: seq<Op>)

  const Start := Layout(Margin, DefaultFont, [])

  /** The lowest position a block may reach. */
  function Bottom(pg: Page): int { pg.height - Margin }

  /** The height between the margins. */
  function Usable(pg: Page): int { pg.height - 2 * Margin }

  /** The height reserved for a block. */
  function Reserved(pg: Page, st: Layout, text: string, font: Font): nat {
    pg.measure(text, if pg.at == PreviousFont then st.font else font)
  }

  /** One step. A block that would cross the bottom margin first gets a new page, with the
      cursor back at the top margin; a separator is checked the same way; a gap is not. */
  function Exec(pg: Page, st: Layout, step: Step): Layout {
    match step
    case Write(t, f, sa) =>
      var h := Reserved(pg, st, t, f);
      if st.y + h > Bottom(pg) then Layout(Margin + h + sa, f, st.ops + [AddPage, Text(t, f, Margin)])
      else Layout(st.y + h + sa, f, st.ops + [Text(t, f, st.y)])
    case Gap(n) => st.(y := st.y + n)
    case Separator =>
      if st.y + SeparatorHeight > Bottom(pg) then Layout(Margin + SeparatorHeight, st.font, st.ops + [AddPage, Line(Margin)])
      else Layout(st.y + SeparatorHeight, st.font, st.ops + [Line(st.y)])
  }

  /** The steps in order. */
  function Run(pg: Page, st: Layout, steps: seq<Step>): Layout {
    if steps == [] then st else Exec(pg, Run(pg, st, steps[..|steps| - 1]), steps[|steps| - 1])
  }

  /** A non-empty sequence is its front followed by its last element. */
  lemma SplitLast<T>(s: seq<T>)
    requires s != []
    ensures s == s[..|s| - 1] + [s[|s| - 1]]
  {
  }

  lemma RunSnoc(pg: Page, st: Layout, steps: seq<Step>, step: Step)
    ensures Run(pg, st, steps + [step]) == Exec(pg, Run(pg, st, steps), step)
  {
    assert (steps + [step])[..|steps|] == steps;
  }

  lemma RunNext(pg: Page, st: Layout, steps: seq<Step>, i: nat)
    requires i < |steps|
    ensures Run(pg, st, steps[..i + 1]) == Exec(pg, Run(pg, st, steps[..i]), steps[i])
  {
    assert steps[..i + 1][..i] == steps[..i];
  }

  /** Running two step lists one after the other is running their concatenation. */
  lemma {:induction false} RunAppend(pg: Page, st: Layout, a: seq<Step>, b: seq<Step>)
    ensures Run(pg, st, a + b) == Run(pg, Run(pg, st, a), b)
  {
    if b == [] {
      assert a + b == a;
    } else {
      var init, last := b[..|b| - 1], b[|b| - 1];
      assert a + b == (a + init) + [last];
      RunSnoc(pg, st, a + init, last);
      RunAppend(pg, st, a, init);
      RunSnoc(pg, Run(pg, st, a), init, last);
      assert b == init + [last];
    }
  }

  /** Every step keeps what was drawn before and appends at most a new page and one text or
      rule. A gap draws nothing and moves the cursor down by its amount. A separator draws
      one rule, at the cursor, or at the top margin of a new page exactly when the rule would
      cross the bottom margin, and the cursor moves to just below the rule. Only a text block
      changes the font, to its own. */
  lemma ExecAppends(pg: Page, st: Layout, step: Step)
    ensures var r := Exec(pg, st, step);
      && st.ops <= r.ops && |r.ops| <= |st.ops| + 2
      && r.font == (if step.Write? then step.font else st.font)
      && (step.Gap? ==> r.ops == st.ops && r.y == st.y + step.amount)
      && (step.Separator? ==>
            var breaks := st.y + SeparatorHeight > Bottom(pg);
            var at := if breaks then Margin else st.y;
            && r.ops == st.ops + (if breaks then [AddPage, Line(Margin)] else [Line(st.y)])
            && r.y == at + SeparatorHeight)
  {
    var r := Exec(pg, st, step);
    if !step.Gap? {
      assert r.ops[..|st.ops|] == st.ops;
    }
  }

  /** The font left set after the steps: that of the last text block, or the one set before
      when there is none. */
  function FontAfter(steps: seq<Step>, font: Font): Font {
    if steps == [] then font
    else if steps[|steps| - 1].Write? then steps[|steps| - 1].font
    else FontAfter(steps[..|steps| - 1], font)
  }

  /** Running steps only appends drawing calls, at most two per step, and leaves the font of
      the last text block set. */
  lemma {:induction false} RunAppends(pg: Page, st: Layout, steps: seq<Step>)
    ensures var r := Run(pg, st, steps);
      && st.ops <= r.ops && |r.ops| <= |st.ops| + 2 * |steps|
      && r.font == FontAfter(steps, st.font)
  {
    if steps != [] {
      var init, last := steps[..|steps| - 1], steps[|steps| - 1];
      var mid := Run(pg, st, init);
      RunAppends(pg, st, init);
      ExecAppends(pg, mid, last);
      var r := Exec(pg, mid, last);
      assert r.ops[..|st.ops|] == mid.ops[..|st.ops|] by {
        assert r.ops[..|mid.ops|] == mid.ops;
      }
    }
  }

  // ---------------------------------------------------------------------------------------
  // The blocks of the export

  function TitleStep(): Step { Write(Title, TitleFont, TitleSpace) }
  function HeadingStep(category: string): Step { Write(category, HeadingFont, HeadingSpace) }
  function BodyStep(p: Prompt): Step { Write(p.fullPrompt, BodyFont, BodySpace) }

  /** A category's prompts: a separator before every prompt but the first. */
  function BodySteps(group: seq<Prompt>): seq<Step> {
    if group == [] then []
    else
      BodySteps(group[..|group| - 1])
      + (if |group| > 1 then [Separator] else [])
      + [BodyStep(group[|group| - 1])]
  }

  lemma BodyStepsNext(group: seq<Prompt>, j: nat)
    requires j < |group|
    ensures BodySteps(group[..j + 1])
         == BodySteps(group[..j]) + (if j > 0 then [Separator] else []) + [BodyStep(group[j])]
  {
    assert group[..j + 1][..j] == group[..j];
  }

  /** `groupedPrompts[category]`. */
  function GroupOf(groups: map<string, seq<Prompt>>, category: string): seq<Prompt> {
    if category in groups then groups[category] else []
  }

  /** The categories in order: a gap before every heading but the first, then the heading and
      the category's prompts. */
  function CategorySteps(categories: seq<string>, groups: map<string, seq<Prompt>>): seq<Step> {
    if categories == [] then []
    else
      var c := categories[|categories| - 1];
      CategorySteps(categories[..|categories| - 1], groups)
      + CategoryBlock(c, GroupOf(groups, c), |categories| == 1)
  }

  /** One category: the gap (unless it is the first), its heading, then its prompts. */
  function CategoryBlock(category: string, group: seq<Prompt>, first: bool): seq<Step> {
    (if first then [] else [Gap(CategoryGap)]) + [HeadingStep(category)] + BodySteps(group)
  }

  lemma CategoryStepsNext(categories: seq<string>, i: nat, groups: map<string, seq<Prompt>>)
    requires i < |categories|
    ensures CategorySteps(categories[..i + 1], groups)
         == CategorySteps(categories[..i], groups) + CategoryBlock(categories[i], GroupOf(groups, categories[i]), i == 0)
  {
    assert categories[..i + 1][..i] == categories[..i];
  }

  /** The whole export: the title, then the categories in sorted order. */
  function Program(ps: seq<Prompt>, before: (string, string) -> bool): seq<Step>
    requires Total(before)
  {
    [TitleStep()] + CategorySteps(SortedCategories(ps, before), Grouped(ps))
  }

  /** A group of n prompts gives 2n - 1 blocks: the prompts at the even positions, in order,
      and a separator between each two. */
  lemma {:induction false} BodyStepsShape(group: seq<Prompt>)
    ensures |BodySteps(group)| == if group == [] then 0 else 2 * |group| - 1
    ensures forall j :: 0 <= j < |group| ==> BodySteps(group)[2 * j] == BodyStep(group[j])
    ensures forall j :: 0 < j < |group| ==> BodySteps(group)[2 * j - 1] == Separator
  {
    if group != [] {
      var init := group[..|group| - 1];
      var sep: seq<Step> := if |group| > 1 then [Separator] else [];
      var front := BodySteps(init);
      BodyStepsShape(init);
      assert BodySteps(group) == front + sep + [BodyStep(group[|group| - 1])];
      forall j | 0 <= j < |group|
        ensures BodySteps(group)[2 * j] == BodyStep(group[j])
      {
        if j < |init| {
          assert front[2 * j] == BodyStep(init[j]);
        }
      }
      forall j | 0 < j < |group|
        ensures BodySteps(group)[2 * j - 1] == Separator
      {
        if j < |init| {
          assert front[2 * j - 1] == Separator;
        }
      }
    }
  }

  /** There are blocks exactly when there are categories, and the first is the first
      category's heading, with no gap before it. */
  lemma {:induction false} CategoryStepsShape(categories: seq<string>, groups: map<string, seq<Prompt>>)
    ensures CategorySteps(categories, groups) == [] <==> categories == []
    ensures categories != [] ==> CategorySteps(categories, groups)[0] == HeadingStep(categories[0])
  {
    if categories != [] {
      var init, c := categories[..|categories| - 1], categories[|categories| - 1];
      var block := CategoryBlock(c, GroupOf(groups, c), init == []);
      CategoryStepsShape(init, groups);
      assert CategorySteps(categories, groups) == CategorySteps(init, groups) + block;
      if init == [] {
        assert block[0] == HeadingStep(c);
      } else {
        assert init[0] == categories[0];
      }
    }
  }

  /** The export starts with the title; an empty vault writes the title alone, and any other
      goes on with the heading of the first category in sorted order. */
  lemma ProgramShape(ps: seq<Prompt>, before: (string, string) -> bool)
    requires Total(before)
    ensures |Program(ps, before)| >= 1 && Program(ps, before)[0] == TitleStep()
    ensures |Program(ps, before)| == 1 <==> ps == []
    ensures ps != [] ==> Program(ps, before)[1] == HeadingStep(SortedCategories(ps, before)[0])
  {
    var ks := SortedCategories(ps, before);
    ExportEnabledIffCategories(ps, before);
    CategoryStepsShape(ks, Grouped(ps));
  }

  /** The export button is disabled for an empty list. */
  predicate ExportEnabled(ps: seq<Prompt>) {
    |ps| > 0
  }

  // ---------------------------------------------------------------------------------------
  // The export as the code runs it

  /** `writeText`: wrap and measure, break the page if the block would cross the bottom
      margin, set the block's font, draw, and advance the cursor. */
  method WriteText(pg: Page, y: int, font: Font, ops: seq<Op>, text: string, blockFont: Font, spaceAfter: nat)
    returns (y': int, font': Font, ops': seq<Op>)
    ensures Layout(y', font', ops') == Exec(pg, Layout(y, font, ops), Write(text, blockFont, spaceAfter))
  {
    var height := pg.measure(text, if pg.at == PreviousFont then font else blockFont);
    y' := y;
    ops' := ops;
    if y' + height > pg.height - Margin {
      ops' := ops' + [AddPage];
      y' := Margin;
    }
    font' := blockFont;
    ops' := ops' + [Text(text, blockFont, y')];
    y' := y' + height + spaceAfter;
  }

  /** The inner `forEach` of the export: a category's prompts, with a separator rule (and
      its own page-break check) before every prompt but the first. */
  method WriteGroup(pg: Page, y: int, font: Font, ops: seq<Op>, group: seq<Prompt>)
    returns (y': int, font': Font, ops': seq<Op>)
    ensures Layout(y', font', ops') == Run(pg, Layout(y, font, ops), BodySteps(group))
  {
    ghost var st := Layout(y, font, ops);
    y', font', ops' := y, font, ops;
    for j := 0 to |group|
      invariant Layout(y', font', ops') == Run(pg, st, BodySteps(group[..j]))
    {
      ghost var sep := if j > 0 then [Separator] else [];
      ghost var done := BodySteps(group[..j]);
      BodyStepsNext(group, j);
      if j > 0 {
        if y' + SeparatorHeight > pg.height - Margin {
          ops' := ops' + [AddPage];
          y' := Margin;
        }
        ops' := ops' + [Line(y')];
        y' := y' + SeparatorHeight;
        RunSnoc(pg, st, done, Separator);
      } else {
        assert done + sep == done;
      }
      y', font', ops' := WriteText(pg, y', font', ops', group[j].fullPrompt, BodyFont, BodySpace);
      RunSnoc(pg, st, done + sep, BodyStep(group[j]));
    }
    assert group[..|group|] == group;
  }

  /** The outer `forEach` body of the export: the gap before every category but the first,
      the heading, then the category's prompts. */
  method WriteCategory(pg: Page, y: int, font: Font, ops: seq<Op>, category: string, group: seq<Prompt>, first: bool)
    returns (y': int, font': Font, ops': seq<Op>)
    ensures Layout(y', font', ops') == Run(pg, Layout(y, font, ops), CategoryBlock(category, group, first))
  {
    ghost var st := Layout(y, font, ops);
    ghost var gap := if first then [] else [Gap(CategoryGap)];
    y', font', ops' := y, font, ops;
    if !first {
      y' := y' + CategoryGap;
      RunSnoc(pg, st, [], Gap(CategoryGap));
      assert [] + [Gap(CategoryGap)] == gap;
    }
    assert Layout(y', font', ops') == Run(pg, st, gap);
    y', font', ops' := WriteText(pg, y', font', ops', category, HeadingFont, HeadingSpace);
    RunSnoc(pg, st, gap, HeadingStep(category));
    y', font', ops' := WriteGroup(pg, y', font', ops', group);
    RunAppend(pg, st, gap + [HeadingStep(category)], BodySteps(group));
  }

  /** `handleDownloadPdf` with the measurement as written (the previous block's font): the
      calls it makes are those of the export program, followed by the save. */
  method DownloadPdf(ps: seq<Prompt>, before: (string, string) -> bool, pageHeight: int, measure: (string, Font) -> nat)
    returns (ops: seq<Op>)
    requires Total(before)
    ensures ops == Run(Page(pageHeight, measure, PreviousFont), Start, Program(ps, before)).ops + [Save(FileName)]
  {
    var pg := Page(pageHeight, measure, PreviousFont);
    var groups, _ := GroupPrompts(ps);
    var categories := SortedCategories(ps, before);
    var y, font := Margin, DefaultFont;
    ops := [];
    y, font, ops := WriteText(pg, y, font, ops, Title, TitleFont, TitleSpace);
    ghost var titled := Layout(y, font, ops);
    for c := 0 to |categories|
      invariant Layout(y, font, ops) == Run(pg, titled, CategorySteps(categories[..c], groups))
    {
      var category := categories[c];
      assert category in groups;
      ghost var done := CategorySteps(categories[..c], groups);
      y, font, ops := WriteCategory(pg, y, font, ops, category, groups[category], c == 0);
      RunAppend(pg, titled, done, CategoryBlock(category, groups[category], c == 0));
      CategoryStepsNext(categories, c, groups);
    }
    assert categories[..|categories|] == categories;
    RunSnoc(pg, Start, [], TitleStep());
    assert [] + [TitleStep()] == [TitleStep()];
    RunAppend(pg, Start, [TitleStep()], CategorySteps(categories, groups));
    ops := ops + [Save(FileName)];
  }

  // ---------------------------------------------------------------------------------------
  // What the export draws

  /** The text an operation draws in font `f`, if any. */
  function DrawnBy(op: Op, f: Font): seq<string> {
    if op.Text? && op.font == f then [op.text] else []
  }

  /** The text a step writes in font `f`, if any. */
  function WrittenBy(step: Step, f: Font): seq<string> {
    if step.Write? && step.font == f then [step.text] else []
  }

  /** The texts drawn in font `f`, in order. */
  function Drawn(ops: seq<Op>, f: Font): seq<string> {
    if ops == [] then [] else Drawn(ops[..|ops| - 1], f) + DrawnBy(ops[|ops| - 1], f)
  }

  /** The texts the steps write in font `f`, in order. */
  function Written(steps: seq<Step>, f: Font): seq<string> {
    if steps == [] then [] else Written(steps[..|steps| - 1], f) + WrittenBy(steps[|steps| - 1], f)
  }

  /** The prompts' texts, in order. */
  function Texts(ps: seq<Prompt>): (r: seq<string>)
    ensures |r| == |ps|
  {
    if ps == [] then [] else Texts(ps[..|ps| - 1]) + [ps[|ps| - 1].fullPrompt]
  }

  lemma {:induction false} TextsAppend(a: seq<Prompt>, b: seq<Prompt>)
    ensures Texts(a + b) == Texts(a) + Texts(b)
  {
    if b == [] {
      assert a + b == a;
    } else {
      assert (a + b)[..|a + b| - 1] == a + b[..|b| - 1];
      TextsAppend(a, b[..|b| - 1]);
    }
  }

  lemma DrawnSnoc(ops: seq<Op>, op: Op, f: Font)
    ensures Drawn(ops + [op], f) == Drawn(ops, f) + DrawnBy(op, f)
  {
    assert (ops + [op])[..|ops|] == ops;
  }

  lemma WrittenSnoc(steps: seq<Step>, step: Step, f: Font)
    ensures Written(steps + [step], f) == Written(steps, f) + WrittenBy(step, f)
  {
    assert (steps + [step])[..|steps|] == steps;
  }

  lemma {:induction false} WrittenAppend(a: seq<Step>, b: seq<Step>, f: Font)
    ensures Written(a + b, f) == Written(a, f) + Written(b, f)
  {
    if b == [] {
      assert a + b == a;
    } else {
      var init, last := b[..|b| - 1], b[|b| - 1];
      SplitLast(b);
      assert Written(a + b, f) == Written(a + init, f) + WrittenBy(last, f) by {
        assert a + b == (a + init) + [last];
        WrittenSnoc(a + init, last, f);
      }
      assert Written(a + init, f) == Written(a, f) + Written(init, f) by {
        WrittenAppend(a, init, f);
      }
      assert Written(b, f) == Written(init, f) + WrittenBy(last, f) by {
        WrittenSnoc(init, last, f);
      }
      assert (Written(a, f) + Written(init, f)) + WrittenBy(last, f)
          == Written(a, f) + (Written(init, f) + WrittenBy(last, f));
    }
  }

  /** One step draws what it writes; a page break adds a page and a separator a rule, never
      text. */
  lemma ExecDraws(pg: Page, st: Layout, step: Step, f: Font)
    ensures Drawn(Exec(pg, st, step).ops, f) == Drawn(st.ops, f) + WrittenBy(step, f)
  {
    match step
    case Write(t, g, sa) => WriteDraws(pg, st, t, g, sa, f);
    case Gap(n) =>
    case Separator => SeparatorDraws(pg, st, f);
  }

  /** A block draws its own text, after a page break or not. */
  lemma WriteDraws(pg: Page, st: Layout, t: string, g: Font, sa: nat, f: Font)
    ensures Drawn(Exec(pg, st, Write(t, g, sa)).ops, f) == Drawn(st.ops, f) + WrittenBy(Write(t, g, sa), f)
  {
    var ops := Exec(pg, st, Write(t, g, sa)).ops;
    var breaks := st.y + Reserved(pg, st, t, g) > Bottom(pg);
    var at := if breaks then Margin else st.y;
    assert DrawnBy(Text(t, g, at), f) == WrittenBy(Write(t, g, sa), f);
    if breaks {
      assert ops == (st.ops + [AddPage]) + [Text(t, g, Margin)];
      PageThenDraw(st.ops, Text(t, g, Margin), f);
    } else {
      assert ops == st.ops + [Text(t, g, st.y)];
      DrawnSnoc(st.ops, Text(t, g, st.y), f);
    }
  }

  /** A separator draws a rule and no text. */
  lemma SeparatorDraws(pg: Page, st: Layout, f: Font)
    ensures Drawn(Exec(pg, st, Separator).ops, f) == Drawn(st.ops, f)
  {
    var ops := Exec(pg, st, Separator).ops;
    if st.y + SeparatorHeight > Bottom(pg) {
      assert ops == (st.ops + [AddPage]) + [Line(Margin)];
      PageThenDraw(st.ops, Line(Margin), f);
    } else {
      assert ops == st.ops + [Line(st.y)];
      DrawnSnoc(st.ops, Line(st.y), f);
    }
    assert Drawn(st.ops, f) + DrawnBy(Line(0), f) == Drawn(st.ops, f);
  }

  /** A page break draws no text. */
  lemma PageThenDraw(ops: seq<Op>, op: Op, f: Font)
    ensures Drawn((ops + [AddPage]) + [op], f) == Drawn(ops, f) + DrawnBy(op, f)
  {
    assert Drawn(ops + [AddPage], f) == Drawn(ops, f) by {
      DrawnSnoc(ops, AddPage, f);
      assert Drawn(ops, f) + [] == Drawn(ops, f);
    }
    DrawnSnoc(ops + [AddPage], op, f);
  }

  /** Whatever the page breaks, every block is drawn exactly once, in program order. */
  lemma {:induction false} RunDraws(pg: Page, st: Layout, steps: seq<Step>, f: Font)
    ensures Drawn(Run(pg, st, steps).ops, f) == Drawn(st.ops, f) + Written(steps, f)
  {
    if steps != [] {
      var init, last := steps[..|steps| - 1], steps[|steps| - 1];
      RunDraws(pg, st, init, f);
      ExecDraws(pg, Run(pg, st, init), last, f);
    }
  }

  /** The heading text a block in font `f` may be. */
  function HeadingText(category: string, f: Font): seq<string> {
    if f == HeadingFont then [category] else []
  }

  /** The body texts a group writes in font `f`. */
  function BodyTexts(group: seq<Prompt>, f: Font): seq<string> {
    if f == BodyFont then Texts(group) else []
  }

  /** A group writes its prompts' texts in the body font, and nothing else. */
  lemma {:induction false} BodyStepsWrite(group: seq<Prompt>, f: Font)
    ensures Written(BodySteps(group), f) == BodyTexts(group, f)
  {
    if group != [] {
      var init := group[..|group| - 1];
      var sep: seq<Step> := if |group| > 1 then [Separator] else [];
      var body := BodyStep(group[|group| - 1]);
      var front := BodySteps(init);
      assert BodySteps(group) == (front + sep) + [body];
      assert Written((front + sep) + [body], f) == Written(front + sep, f) + WrittenBy(body, f) by {
        WrittenSnoc(front + sep, body, f);
      }
      assert Written(front + sep, f) == Written(front, f) by {
        if |group| > 1 {
          WrittenSnoc(front, Separator, f);
        } else {
          assert front + sep == front;
        }
      }
      assert Written(front, f) == BodyTexts(init, f) by {
        BodyStepsWrite(init, f);
      }
      if f == BodyFont {
        assert Texts(group) == Texts(init) + [body.text];
      }
    }
  }

  /** A category writes its heading, then its prompts. */
  lemma CategoryBlockWrite(category: string, group: seq<Prompt>, first: bool, f: Font)
    ensures Written(CategoryBlock(category, group, first), f) == BlockTexts(category, group, f)
  {
    var gap := if first then [] else [Gap(CategoryGap)];
    var head := [HeadingStep(category)];
    var body := BodySteps(group);
    assert Written(CategoryBlock(category, group, first), f) == Written(gap + head, f) + Written(body, f) by {
      WrittenAppend(gap + head, body, f);
    }
    assert Written(gap + head, f) == HeadingText(category, f) by {
      WrittenAppend(gap, head, f);
      assert Written(gap, f) == [] by { if !first { assert gap[..0] == []; } }
      assert Written(head, f) == HeadingText(category, f) by { assert head[..0] == []; }
    }
    assert Written(body, f) == BodyTexts(group, f) by {
      BodyStepsWrite(group, f);
    }
  }

  /** What one category writes in font `f`: its heading, then its prompts. */
  function BlockTexts(category: string, group: seq<Prompt>, f: Font): seq<string> {
    HeadingText(category, f) + BodyTexts(group, f)
  }

  lemma {:induction false} CategoryStepsWriteNext(ks: seq<string>, groups: map<string, seq<Prompt>>, f: Font)
    requires ks != []
    ensures Written(CategorySteps(ks, groups), f)
         == Written(CategorySteps(ks[..|ks| - 1], groups), f) + BlockTexts(ks[|ks| - 1], GroupOf(groups, ks[|ks| - 1]), f)
  {
    var init, k := ks[..|ks| - 1], ks[|ks| - 1];
    var g := GroupOf(groups, k);
    var cs, block := CategorySteps(init, groups), CategoryBlock(k, g, |ks| == 1);
    assert Written(CategorySteps(ks, groups), f) == Written(cs + block, f) by {
      assert CategorySteps(ks, groups) == cs + block;
    }
    assert Written(cs + block, f) == Written(cs, f) + Written(block, f) by {
      WrittenAppend(cs, block, f);
    }
    assert Written(block, f) == BlockTexts(k, g, f) by {
      CategoryBlockWrite(k, g, |ks| == 1, f);
    }
  }

  /** The headings written are the categories, in order. */
  lemma {:induction false} HeadingsWritten(groups: map<string, seq<Prompt>>, ks: seq<string>)
    ensures Written(CategorySteps(ks, groups), HeadingFont) == ks
  {
    if ks != [] {
      var init, k := ks[..|ks| - 1], ks[|ks| - 1];
      SplitLast(ks);
      var block := BlockTexts(k, GroupOf(groups, k), HeadingFont);
      assert Written(CategorySteps(init, groups), HeadingFont) == init by {
        HeadingsWritten(groups, init);
      }
      assert Written(CategorySteps(ks, groups), HeadingFont)
          == Written(CategorySteps(init, groups), HeadingFont) + block by {
        CategoryStepsWriteNext(ks, groups, HeadingFont);
      }
      assert block == [k] by {
        assert [k] + [] == [k];
      }
    }
  }

  /** The prompts' texts, category by category. */
  function GroupedTexts(groups: map<string, seq<Prompt>>, ks: seq<string>): seq<string> {
    if ks == [] then [] else GroupedTexts(groups, ks[..|ks| - 1]) + Texts(GroupOf(groups, ks[|ks| - 1]))
  }

  /** The bodies written are the prompts, category by category. */
  lemma {:induction false} BodiesWritten(groups: map<string, seq<Prompt>>, ks: seq<string>)
    ensures Written(CategorySteps(ks, groups), BodyFont) == GroupedTexts(groups, ks)
  {
    if ks != [] {
      var k := ks[|ks| - 1];
      BodiesWritten(groups, ks[..|ks| - 1]);
      CategoryStepsWriteNext(ks, groups, BodyFont);
      assert BlockTexts(k, GroupOf(groups, k), BodyFont) == Texts(GroupOf(groups, k)) by {
        assert [] + Texts(GroupOf(groups, k)) == Texts(GroupOf(groups, k));
      }
    }
  }

  /** For the grouping of the prompts, that is the texts of the prompts grouped in category
      order. */
  lemma {:induction false} GroupedTextsFlatten(ps: seq<Prompt>, ks: seq<string>)
    requires forall k :: k in ks ==> k in Grouped(ps)
    ensures GroupedTexts(Grouped(ps), ks) == Texts(Flatten(ps, ks))
  {
    if ks != [] {
      var init, k := ks[..|ks| - 1], ks[|ks| - 1];
      GroupedTextsFlatten(ps, init);
      assert GroupOf(Grouped(ps), k) == Bucket(ps, k);
      TextsAppend(Flatten(ps, init), Bucket(ps, k));
    }
  }

  /** Nothing else is written by the categories. */
  lemma {:induction false} NothingElseWritten(groups: map<string, seq<Prompt>>, ks: seq<string>, f: Font)
    requires f != HeadingFont && f != BodyFont
    ensures Written(CategorySteps(ks, groups), f) == []
  {
    if ks != [] {
      var k := ks[|ks| - 1];
      NothingElseWritten(groups, ks[..|ks| - 1], f);
      CategoryStepsWriteNext(ks, groups, f);
      assert BlockTexts(k, GroupOf(groups, k), f) == [];
    }
  }

  /** The categories of the export write the headings in sorted order in the heading font,
      the prompts in export order in the body font, and nothing else. */
  lemma CategoriesWritten(ps: seq<Prompt>, before: (string, string) -> bool, f: Font)
    requires Total(before)
    ensures Written(CategorySteps(SortedCategories(ps, before), Grouped(ps)), f)
         == if f == HeadingFont then SortedCategories(ps, before)
            else if f == BodyFont then Texts(ExportOrder(ps, before))
            else []
  {
    var ks := SortedCategories(ps, before);
    if f == HeadingFont {
      HeadingsWritten(Grouped(ps), ks);
    } else if f == BodyFont {
      BodiesWritten(Grouped(ps), ks);
      GroupedTextsFlatten(ps, ks);
    } else {
      NothingElseWritten(Grouped(ps), ks, f);
    }
  }

  /** Run from the start, the steps draw exactly what they write. */
  lemma StartDraws(pg: Page, steps: seq<Step>, f: Font)
    ensures Drawn(Run(pg, Start, steps).ops, f) == Written(steps, f)
  {
    RunDraws(pg, Start, steps, f);
    assert Drawn([], f) == [];
    assert [] + Written(steps, f) == Written(steps, f);
  }

  /** A titled program writes the title, then what the rest writes. */
  lemma TitledWritten(cs: seq<Step>, f: Font)
    ensures Written([TitleStep()] + cs, f) == WrittenBy(TitleStep(), f) + Written(cs, f)
  {
    WrittenAppend([TitleStep()], cs, f);
    WrittenSnoc([], TitleStep(), f);
    assert [] + [TitleStep()] == [TitleStep()];
  }

  /** The document holds the title once, then the category headings in sorted order, and
      as body text every prompt's text exactly once, category by category — whatever the
      page size and the measurement. */
  lemma ExportContents(pg: Page, ps: seq<Prompt>, before: (string, string) -> bool, f: Font)
    requires Total(before)
    ensures Drawn(Run(pg, Start, Program(ps, before)).ops, f)
         == if f == TitleFont then [Title]
            else if f == HeadingFont then SortedCategories(ps, before)
            else if f == BodyFont then Texts(ExportOrder(ps, before))
            else []
  {
    var steps := CategorySteps(SortedCategories(ps, before), Grouped(ps));
    var cs := Written(steps, f);
    StartDraws(pg, Program(ps, before), f);
    TitledWritten(steps, f);
    CategoriesWritten(ps, before, f);
    if f == TitleFont {
      assert WrittenBy(TitleStep(), f) + cs == [Title];
    } else {
      assert WrittenBy(TitleStep(), f) + cs == cs;
    }
  }

  // ---------------------------------------------------------------------------------------
  // The document as a whole: every text with its font, across fonts

  /** The text an operation draws, with its font. */
  function DrawnText(op: Op): seq<(string, Font)> {
    if op.Text? then [(op.text, op.font)] else []
  }

  /** The text a step writes, with its font. */
  function WrittenText(step: Step): seq<(string, Font)> {
    if step.Write? then [(step.text, step.font)] else []
  }

  /** Every text drawn, with its font, in order. */
  function AllDrawn(ops: seq<Op>): seq<(string, Font)> {
    if ops == [] then [] else AllDrawn(ops[..|ops| - 1]) + DrawnText(ops[|ops| - 1])
  }

  /** Every text the steps write, with its font, in order. */
  function AllWritten(steps: seq<Step>): seq<(string, Font)> {
    if steps == [] then [] else AllWritten(steps[..|steps| - 1]) + WrittenText(steps[|steps| - 1])
  }

  lemma AllDrawnSnoc(ops: seq<Op>, op: Op)
    ensures AllDrawn(ops + [op]) == AllDrawn(ops) + DrawnText(op)
  {
    assert (ops + [op])[..|ops|] == ops;
  }

  lemma AllWrittenSnoc(steps: seq<Step>, step: Step)
    ensures AllWritten(steps + [step]) == AllWritten(steps) + WrittenText(step)
  {
    assert (steps + [step])[..|steps|] == steps;
  }

  lemma {:induction false} AllWrittenAppend(a: seq<Step>, b: seq<Step>)
    ensures AllWritten(a + b) == AllWritten(a) + AllWritten(b)
  {
    if b == [] {
      assert a + b == a;
    } else {
      var init, last := b[..|b| - 1], b[|b| - 1];
      SplitLast(b);
      assert AllWritten(a + b) == AllWritten(a + init) + WrittenText(last) by {
        assert a + b == (a + init) + [last];
        AllWrittenSnoc(a + init, last);
      }
      assert AllWritten(a + init) == AllWritten(a) + AllWritten(init) by {
        AllWrittenAppend(a, init);
      }
      assert AllWritten(b) == AllWritten(init) + WrittenText(last) by {
        AllWrittenSnoc(init, last);
      }
      assert (AllWritten(a) + AllWritten(init)) + WrittenText(last)
          == AllWritten(a) + (AllWritten(init) + WrittenText(last));
    }
  }

  /** One step draws the text it writes, whatever the page break, and a rule draws none. */
  lemma ExecDrawsAll(pg: Page, st: Layout, step: Step)
    ensures AllDrawn(Exec(pg, st, step).ops) == AllDrawn(st.ops) + WrittenText(step)
  {
    var ops := Exec(pg, st, step).ops;
    match step
    case Write(t, g, sa) =>
      if st.y + Reserved(pg, st, t, g) > Bottom(pg) {
        assert ops == (st.ops + [AddPage]) + [Text(t, g, Margin)];
        AllPageThenDraw(st.ops, Text(t, g, Margin));
      } else {
        assert ops == st.ops + [Text(t, g, st.y)];
        AllDrawnSnoc(st.ops, Text(t, g, st.y));
      }
    case Gap(n) =>
      assert AllDrawn(st.ops) + [] == AllDrawn(st.ops);
    case Separator =>
      if st.y + SeparatorHeight > Bottom(pg) {
        assert ops == (st.ops + [AddPage]) + [Line(Margin)];
        AllPageThenDraw(st.ops, Line(Margin));
      } else {
        assert ops == st.ops + [Line(st.y)];
        AllDrawnSnoc(st.ops, Line(st.y));
      }
      assert AllDrawn(st.ops) + [] == AllDrawn(st.ops);
  }

  /** A page break draws no text. */
  lemma AllPageThenDraw(ops: seq<Op>, op: Op)
    ensures AllDrawn((ops + [AddPage]) + [op]) == AllDrawn(ops) + DrawnText(op)
  {
    assert AllDrawn(ops + [AddPage]) == AllDrawn(ops) by {
      AllDrawnSnoc(ops, AddPage);
      assert AllDrawn(ops) + [] == AllDrawn(ops);
    }
    AllDrawnSnoc(ops + [AddPage], op);
  }

  /** Whatever the page breaks, the document shows the program's texts in program order. */
  lemma {:induction false} RunDrawsAll(pg: Page, st: Layout, steps: seq<Step>)
    ensures AllDrawn(Run(pg, st, steps).ops) == AllDrawn(st.ops) + AllWritten(steps)
  {
    if steps != [] {
      var init, last := steps[..|steps| - 1], steps[|steps| - 1];
      RunDrawsAll(pg, st, init);
      ExecDrawsAll(pg, Run(pg, st, init), last);
    }
  }

  /** A group's prompts in the body font. */
  function Bodies(group: seq<Prompt>): seq<(string, Font)> {
    if group == [] then [] else Bodies(group[..|group| - 1]) + [(group[|group| - 1].fullPrompt, BodyFont)]
  }

  /** The outline of the categories: each heading, directly followed by its prompts. */
  function Outline(groups: map<string, seq<Prompt>>, ks: seq<string>): seq<(string, Font)> {
    if ks == [] then []
    else
      var k := ks[|ks| - 1];
      Outline(groups, ks[..|ks| - 1]) + [(k, HeadingFont)] + Bodies(GroupOf(groups, k))
  }

  /** A group writes its prompts, and the separators between them write nothing. */
  lemma {:induction false} BodyStepsOutline(group: seq<Prompt>)
    ensures AllWritten(BodySteps(group)) == Bodies(group)
  {
    if group != [] {
      var init := group[..|group| - 1];
      var sep: seq<Step> := if |group| > 1 then [Separator] else [];
      var body := BodyStep(group[|group| - 1]);
      var front := BodySteps(init);
      assert BodySteps(group) == (front + sep) + [body];
      assert AllWritten((front + sep) + [body]) == AllWritten(front + sep) + WrittenText(body) by {
        AllWrittenSnoc(front + sep, body);
      }
      assert AllWritten(front + sep) == AllWritten(front) by {
        if |group| > 1 {
          AllWrittenSnoc(front, Separator);
        } else {
          assert front + sep == front;
        }
      }
      assert AllWritten(front) == Bodies(init) by {
        BodyStepsOutline(init);
      }
    }
  }

  /** A category writes its heading, then its prompts; the gap writes nothing. */
  lemma CategoryBlockOutline(category: string, group: seq<Prompt>, first: bool)
    ensures AllWritten(CategoryBlock(category, group, first)) == [(category, HeadingFont)] + Bodies(group)
  {
    var gap: seq<Step> := if first then [] else [Gap(CategoryGap)];
    var head := [HeadingStep(category)];
    assert AllWritten(CategoryBlock(category, group, first)) == AllWritten(gap + head) + AllWritten(BodySteps(group)) by {
      AllWrittenAppend(gap + head, BodySteps(group));
    }
    assert AllWritten(gap + head) == [(category, HeadingFont)] by {
      AllWrittenAppend(gap, head);
      assert AllWritten(gap) == [] by { if !first { assert gap[..0] == []; } }
      assert AllWritten(head) == [(category, HeadingFont)] by { assert head[..0] == []; }
    }
    BodyStepsOutline(group);
  }

  /** The categories write their outline. */
  lemma {:induction false} CategoryStepsOutline(groups: map<string, seq<Prompt>>, ks: seq<string>)
    ensures AllWritten(CategorySteps(ks, groups)) == Outline(groups, ks)
  {
    if ks != [] {
      var init, k := ks[..|ks| - 1], ks[|ks| - 1];
      var g := GroupOf(groups, k);
      var cs, block := CategorySteps(init, groups), CategoryBlock(k, g, |ks| == 1);
      assert AllWritten(CategorySteps(ks, groups)) == AllWritten(cs) + AllWritten(block) by {
        assert CategorySteps(ks, groups) == cs + block;
        AllWrittenAppend(cs, block);
      }
      assert AllWritten(cs) == Outline(groups, init) by {
        CategoryStepsOutline(groups, init);
      }
      assert AllWritten(block) == [(k, HeadingFont)] + Bodies(g) by {
        CategoryBlockOutline(k, g, |ks| == 1);
      }
      assert Outline(groups, ks) == Outline(groups, init) + ([(k, HeadingFont)] + Bodies(g));
    }
  }

  /** Across fonts, the document reads: the title, then each category in sorted order as its
      heading directly followed by its prompts, whatever the page size and the measurement. */
  lemma ExportOutline(pg: Page, ps: seq<Prompt>, before: (string, string) -> bool)
    requires Total(before)
    ensures AllDrawn(Run(pg, Start, Program(ps, before)).ops)
         == [(Title, TitleFont)] + Outline(Grouped(ps), SortedCategories(ps, before))
  {
    var cs := CategorySteps(SortedCategories(ps, before), Grouped(ps));
    RunDrawsAll(pg, Start, Program(ps, before));
    assert AllDrawn(Start.ops) == [];
    AllWrittenAppend([TitleStep()], cs);
    assert AllWritten([TitleStep()]) == [(Title, TitleFont)] by {
      assert [TitleStep()][..0] == [];
    }
    CategoryStepsOutline(Grouped(ps), SortedCategories(ps, before));
  }

  /** The export button is enabled exactly when there is a category to write. */
  lemma ExportEnabledIffCategories(ps: seq<Prompt>, before: (string, string) -> bool)
    requires Total(before)
    ensures ExportEnabled(ps) <==> |SortedCategories(ps, before)| > 0
  {
    GroupedKeys(ps);
    if |ps| > 0 {
      assert GroupKey(ps[0]) in SortedCategories(ps, before);
    }
  }

  // ---------------------------------------------------------------------------------------
  // Staying inside the margins

  /** A drawn text or rule lies between the margins, measured by its own font. */
  predicate Placed(pg: Page, op: Op) {
    match op
    case Text(t, f, y) => Margin <= y && y + pg.measure(t, f) <= Bottom(pg)
    case Line(y) => Margin <= y && y + SeparatorHeight <= Bottom(pg)
    case _ => true
  }

  /** The cursor is below the top margin and everything drawn so far is placed. */
  predicate Inside(pg: Page, st: Layout) {
    st.y >= Margin && forall i :: 0 <= i < |st.ops| ==> Placed(pg, st.ops[i])
  }

  /** Every block, and a separator, is no taller than a page's usable height. */
  predicate BlocksFit(pg: Page, steps: seq<Step>) {
    SeparatorHeight <= Usable(pg)
    && forall i :: 0 <= i < |steps| && steps[i].Write? ==> pg.measure(steps[i].text, steps[i].font) <= Usable(pg)
  }

  /** A block is never split: writing it appends its text once, preceded by exactly one new
      page when the reserved height would cross the bottom margin from the cursor, and drawn
      at the top margin in that case and at the cursor otherwise; the cursor then moves to
      the drawing position plus the reserved height plus the space after the block. */
  lemma WriteBreaksOnce(pg: Page, st: Layout, t: string, f: Font, sa: nat)
    ensures
      var r, h := Exec(pg, st, Write(t, f, sa)), Reserved(pg, st, t, f);
      var breaks := st.y + h > Bottom(pg);
      var at := r.y - h - sa;
      && r.font == f
      && |r.ops| == |st.ops| + (if breaks then 2 else 1)
      && r.ops[..|st.ops|] == st.ops
      && r.ops[|r.ops| - 1] == Text(t, f, at)
      && (breaks ==> r.ops[|st.ops|] == AddPage && at == Margin)
      && (!breaks ==> at == st.y)
  {
    var r := Exec(pg, st, Write(t, f, sa));
    assert r.ops[..|st.ops|] == st.ops;
  }

  /** A block taller than a page's usable height always starts a new page, even at the top
      of an empty one, and then runs past the bottom margin. */
  lemma OversizedBlockBreaks(pg: Page, st: Layout, t: string, f: Font, sa: nat)
    requires st.y >= Margin && Reserved(pg, st, t, f) > Usable(pg)
    ensures Exec(pg, st, Write(t, f, sa)).ops == st.ops + [AddPage, Text(t, f, Margin)]
    ensures pg.at == OwnFont ==> !Placed(pg, Text(t, f, Margin))
  {
  }

  lemma ExecInside(pg: Page, st: Layout, step: Step)
    requires pg.at == OwnFont && Inside(pg, st) && BlocksFit(pg, [step])
    ensures Inside(pg, Exec(pg, st, step))
  {
    var r := Exec(pg, st, step);
    assert r.ops[..|st.ops|] == st.ops;
    if step.Write? {
      assert [step][0] == step;
    }
  }

  /** Measuring each block in its own font, every block that fits on a page is drawn
      between the margins. */
  lemma {:induction false} OwnFontStaysInside(pg: Page, st: Layout, steps: seq<Step>)
    requires pg.at == OwnFont && Inside(pg, st) && BlocksFit(pg, steps)
    ensures Inside(pg, Run(pg, st, steps))
  {
    if steps != [] {
      var init, last := steps[..|steps| - 1], steps[|steps| - 1];
      assert BlocksFit(pg, init) by {
        forall i | 0 <= i < |init| && init[i].Write?
          ensures pg.measure(init[i].text, init[i].font) <= Usable(pg)
        {
          assert init[i] == steps[i];
        }
      }
      assert BlocksFit(pg, [last]) by {
        assert [last][0] == steps[|steps| - 1];
      }
      OwnFontStaysInside(pg, st, init);
      ExecInside(pg, Run(pg, st, init), last);
    }
  }

  /** The export measured in each block's own font draws everything between the margins. */
  lemma CorrectedExportInside(ps: seq<Prompt>, before: (string, string) -> bool, pageHeight: int, measure: (string, Font) -> nat)
    requires Total(before)
    requires BlocksFit(Page(pageHeight, measure, OwnFont), Program(ps, before))
    ensures Inside(Page(pageHeight, measure, OwnFont), Run(Page(pageHeight, measure, OwnFont), Start, Program(ps, before)))
  {
    OwnFontStaysInside(Page(pageHeight, measure, OwnFont), Start, Program(ps, before));
  }

  // ---------------------------------------------------------------------------------------
  // The stale measurement, on an input

  lemma TwoCategorySteps(groups: map<string, seq<Prompt>>, a: Prompt, b1: Prompt, b2: Prompt)
    requires GroupOf(groups, "A") == [a] && GroupOf(groups, "B") == [b1, b2]
    ensures CategorySteps(["A", "B"], groups)
         == [HeadingStep("A"), BodyStep(a), Gap(CategoryGap), HeadingStep("B"), BodyStep(b1), Separator, BodyStep(b2)]
  {
    var ks := ["A", "B"];
    var first := [HeadingStep("A"), BodyStep(a)];
    var second := [Gap(CategoryGap), HeadingStep("B"), BodyStep(b1), Separator, BodyStep(b2)];
    assert ks[..1] == ["A"] && ks[..2] == ks && ks[..0] == [];
    assert CategorySteps(ks[..1], groups) == first by {
      CategoryStepsNext(ks, 0, groups);
      assert BodySteps([a]) == [BodyStep(a)] by {
        assert [a][..0] == [];
      }
    }
    assert CategoryBlock("B", [b1, b2], false) == second by {
      assert BodySteps([b1, b2]) == [BodyStep(b1), Separator, BodyStep(b2)] by {
        assert [b1, b2][..1] == [b1] && [b1][..0] == [];
      }
    }
    assert CategorySteps(ks, groups) == first + second by {
      CategoryStepsNext(ks, 1, groups);
    }
  }

  /** The blocks of an export, given the blocks of its categories. */
  lemma ProgramFrom(ps: seq<Prompt>, before: (string, string) -> bool, cats: seq<Step>)
    requires Total(before)
    requires CategorySteps(SortedCategories(ps, before), Grouped(ps)) == cats
    ensures Program(ps, before) == [TitleStep()] + cats
  {
  }

  /** The blocks of an export of three prompts in categories "B", "A", "B". */
  lemma ThreePromptProgram(p1: Prompt, p2: Prompt, p3: Prompt, before: (string, string) -> bool)
    requires p1.category == "B" && p2.category == "A" && p3.category == "B"
    requires Total(before) && before("A", "B") && !before("B", "A")
    ensures Program([p1, p2, p3], before)
         == [TitleStep(), HeadingStep("A"), BodyStep(p2), Gap(CategoryGap), HeadingStep("B"),
             BodyStep(p1), Separator, BodyStep(p3)]
  {
    var ps := [p1, p2, p3];
    var cats := [HeadingStep("A"), BodyStep(p2), Gap(CategoryGap), HeadingStep("B"), BodyStep(p1), Separator, BodyStep(p3)];
    assert [TitleStep()] + cats
        == [TitleStep(), HeadingStep("A"), BodyStep(p2), Gap(CategoryGap), HeadingStep("B"),
            BodyStep(p1), Separator, BodyStep(p3)];
    assert CategorySteps(SortedCategories(ps, before), Grouped(ps)) == cats by {
      assert SortedCategories(ps, before) == ["A", "B"]
          && GroupOf(Grouped(ps), "A") == [p2] && GroupOf(Grouped(ps), "B") == [p1, p3] by {
        GroupingExample(p1, p2, p3, before);
      }
      TwoCategorySteps(Grouped(ps), p2, p1, p3);
    }
    ProgramFrom(ps, before, cats);
  }

  /** The run of those blocks on a 125-high page, with heights equal to the font size,
      measuring each block in the previous block's font: the first category ... */
  lemma StaleTraceFirst(p2: Prompt)
    ensures Run(Page(125, (t: string, f: Font) => f.size, PreviousFont), Start,
                [TitleStep(), HeadingStep("A"), BodyStep(p2), Gap(CategoryGap)])
         == Layout(97, BodyFont, [Text(Title, TitleFont, 15), Text("A", HeadingFont, 41),
                                  Text(p2.fullPrompt, BodyFont, 68)])
  {
    var pg := Page(125, (t: string, f: Font) => f.size, PreviousFont);
    var steps := [TitleStep(), HeadingStep("A"), BodyStep(p2), Gap(CategoryGap)];
    RunNext(pg, Start, steps, 0);
    RunNext(pg, Start, steps, 1);
    RunNext(pg, Start, steps, 2);
    RunNext(pg, Start, steps, 3);
    assert steps[..0] == [] && steps[..4] == steps;
  }

  /** ... then the second, whose heading is reserved the body font's height. */
  lemma StaleTraceSecond(p1: Prompt, p3: Prompt, ops: seq<Op>)
    ensures Run(Page(125, (t: string, f: Font) => f.size, PreviousFont), Layout(97, BodyFont, ops),
                [HeadingStep("B"), BodyStep(p1), Separator, BodyStep(p3)])
         == Layout(63, BodyFont, ops + [Text("B", HeadingFont, 97), AddPage, Text(p1.fullPrompt, BodyFont, 15),
                                        Line(39), Text(p3.fullPrompt, BodyFont, 44)])
  {
    var pg := Page(125, (t: string, f: Font) => f.size, PreviousFont);
    var st := Layout(97, BodyFont, ops);
    var steps := [HeadingStep("B"), BodyStep(p1), Separator, BodyStep(p3)];
    RunNext(pg, st, steps, 0);
    RunNext(pg, st, steps, 1);
    RunNext(pg, st, steps, 2);
    RunNext(pg, st, steps, 3);
    assert steps[..0] == [] && steps[..4] == steps;
  }

  /** Measuring each block in the previous block's font, a heading that follows a body is
      reserved the body font's height: on a 125-high page, with heights equal to the font
      size, the heading "B" is drawn at 97 and reaches 113, past the bottom margin at 110,
      although every block fits on a page. Measured in its own font, the same export stays
      inside the margins. */
  lemma StaleFontOverflows(p1: Prompt, p2: Prompt, p3: Prompt, before: (string, string) -> bool)
    requires p1.category == "B" && p2.category == "A" && p3.category == "B"
    requires Total(before) && before("A", "B") && !before("B", "A")
    ensures var pg := Page(125, (t: string, f: Font) => f.size, PreviousFont);
            && BlocksFit(pg, Program([p1, p2, p3], before))
            && Text("B", HeadingFont, 97) in Run(pg, Start, Program([p1, p2, p3], before)).ops
            && !Placed(pg, Text("B", HeadingFont, 97))
    ensures Inside(Page(125, (t: string, f: Font) => f.size, OwnFont),
                   Run(Page(125, (t: string, f: Font) => f.size, OwnFont), Start, Program([p1, p2, p3], before)))
  {
    var measure := (t: string, f: Font) => f.size;
    var first := [TitleStep(), HeadingStep("A"), BodyStep(p2), Gap(CategoryGap)];
    var second := [HeadingStep("B"), BodyStep(p1), Separator, BodyStep(p3)];
    var steps := first + second;
    assert steps == [TitleStep(), HeadingStep("A"), BodyStep(p2), Gap(CategoryGap), HeadingStep("B"),
                     BodyStep(p1), Separator, BodyStep(p3)];
    var pg := Page(125, measure, PreviousFont);
    var mid := Run(pg, Start, first);
    assert Run(pg, Start, steps).ops[3] == Text("B", HeadingFont, 97) by {
      StaleTraceFirst(p2);
      StaleTraceSecond(p1, p3, mid.ops);
      RunAppend(pg, Start, first, second);
    }
    assert BlocksFit(Page(125, measure, PreviousFont), steps);
    assert BlocksFit(Page(125, measure, OwnFont), steps);
    ThreePromptProgram(p1, p2, p3, before);
    CorrectedExportInside([p1, p2, p3], before, 125, measure);
  }
}
