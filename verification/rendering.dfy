/**
 Placeholder substitution in a Word template. A document is its body paragraphs and its
 tables; a table is rows of cells, each cell holding paragraphs; a paragraph is the texts
 of its runs (the stretches of uniformly formatted text). A placeholder `{KEY}` is only
 replaced where it lies wholly inside one run, so every run keeps its formatting.
 */
module Rendering {
  import opened Options
  import opened Strings

  datatype Paragraph = Paragraph(runs: seq<String>)

  datatype TableCell = TableCell(paragraphs: seq<Paragraph>)

  datatype Table = Table(rows: seq<seq<TableCell>>)

  datatype Document = Document(paragraphs: seq<Paragraph>, tables: seq<Table>)

  /** Keys with the text of their values, in insertion order. */
  type Context = seq<(String, String)>

  /** The context pairing each key with the value in the same position, as a dict literal does. */
  function Zip(keys: seq<String>, values: seq<String>): (ctx: Context)
    requires |keys| == |values|
    ensures |ctx| == |keys|
    ensures forall i :: 0 <= i < |ctx| ==> ctx[i] == (keys[i], values[i])
  {
    if |keys| == 0 then [] else [(keys[0], values[0])] + Zip(keys[1..], values[1..])
  }

  function Placeholder(key: String): (p: String)
    ensures |p| == |key| + 2 && p[0] == '{' && p[|p| - 1] == '}'
  {
    "{" + key + "}"
  }

  /** The text of a paragraph: its runs one after another. */
  function Concat(runs: seq<String>): (t: String)
    ensures |runs| == 1 ==> t == runs[0]
  {
    if |runs| == 0 then [] else Concat(runs[..|runs| - 1]) + runs[|runs| - 1]
  }

  function ParagraphText(p: Paragraph): String {
    Concat(p.runs)
  }

  lemma {:induction false} ConcatSplit(runs: seq<String>, i: nat)
    requires i < |runs|
    ensures Concat(runs) == Concat(runs[..i]) + runs[i] + Concat(runs[i + 1..])
    decreases |runs|
  {
    var n := |runs| - 1;
    if i == n {
      assert runs[..n] == runs[..i];
      assert runs[i + 1..] == [];
    } else {
      var init := runs[..n];
      ConcatSplit(init, i);
      assert init[..i] == runs[..i];
      assert init[i] == runs[i];
      assert init[i + 1..] == runs[i + 1..n];
      assert runs[i + 1..][..|runs[i + 1..]| - 1] == runs[i + 1..n];
    }
  }

  /** A placeholder inside one run is inside the paragraph text. */
  lemma RunInText(runs: seq<String>, i: nat, ph: String)
    requires i < |runs| && Contains(runs[i], ph)
    ensures Contains(Concat(runs), ph)
  {
    ConcatSplit(runs, i);
    ContainsInContext(Concat(runs[..i]), runs[i], Concat(runs[i + 1..]), ph);
  }

  /* ---------------------------------------------------------------- one key */

  /** The inner step: a run holding the placeholder has every occurrence replaced. */
  function SubstituteRun(run: String, key: String, value: String): (r: String)
    ensures !Contains(run, Placeholder(key)) ==> r == run
  {
    var ph := Placeholder(key);
    if Contains(run, ph) then ReplaceAll(run, ph, value) else run
  }

  /** One key over one paragraph, guarded by a test on the whole paragraph text. */
  function ReplaceKey(p: Paragraph, key: String, value: String): (q: Paragraph)
    ensures |q.runs| == |p.runs|
    ensures forall i :: 0 <= i < |p.runs| ==> q.runs[i] == SubstituteRun(p.runs[i], key, value)
  {
    if Contains(ParagraphText(p), Placeholder(key)) then
      Paragraph(seq(|p.runs|, i requires 0 <= i < |p.runs| => SubstituteRun(p.runs[i], key, value)))
    else
      NoRunHolds(p.runs, Placeholder(key));
      p
  }

  /** When the paragraph text lacks the placeholder, so does every run, and no run changes. */
  lemma NoRunHolds(runs: seq<String>, ph: String)
    requires !Contains(Concat(runs), ph)
    ensures forall i :: 0 <= i < |runs| ==> !Contains(runs[i], ph)
  {
    forall i | 0 <= i < |runs| ensures !Contains(runs[i], ph) {
      if Contains(runs[i], ph) {
        RunInText(runs, i, ph);
      }
    }
  }

  /* ---------------------------------------------------------------- whole context */

  /** What one run becomes on its own: replace-all of `{KEY}` by the value, key after key. */
  function RunResult(run: String, ctx: Context): String
    decreases |ctx|
  {
    if |ctx| == 0 then run
    else RunResult(ReplaceAll(run, Placeholder(ctx[0].0), ctx[0].1), ctx[1..])
  }

  /**
   `replace_placeholders_in_paragraph`: the keys in context order, each applied to the
   paragraph as the previous ones left it. The runs keep their number and order, and each
   run ends up as `RunResult` of its own text.
   */
  function ReplaceInParagraph(p: Paragraph, ctx: Context): (q: Paragraph)
    ensures |q.runs| == |p.runs|
    ensures forall i :: 0 <= i < |p.runs| ==> q.runs[i] == RunResult(p.runs[i], ctx)
    decreases |ctx|
  {
    if |ctx| == 0 then p
    else
      var step := ReplaceKey(p, ctx[0].0, ctx[0].1);
      GuardIsReplaceAll(p, ctx[0].0, ctx[0].1);
      ReplaceInParagraph(step, ctx[1..])
  }

  /** The two guards change nothing: a run is always its replace-all. */
  lemma GuardIsReplaceAll(p: Paragraph, key: String, value: String)
    ensures forall i :: 0 <= i < |p.runs| ==>
      ReplaceKey(p, key, value).runs[i] == ReplaceAll(p.runs[i], Placeholder(key), value)
  {
    forall i | 0 <= i < |p.runs|
      ensures ReplaceKey(p, key, value).runs[i] == ReplaceAll(p.runs[i], Placeholder(key), value)
    {
      if !Contains(p.runs[i], Placeholder(key)) {
        ReplaceAbsent(p.runs[i], Placeholder(key), value);
      }
    }
  }

  /** A run holding none of the context's placeholders is left as it is. */
  lemma {:induction false} RunWithoutTokens(run: String, ctx: Context)
    requires forall k :: 0 <= k < |ctx| ==> !Contains(run, Placeholder(ctx[k].0))
    ensures RunResult(run, ctx) == run
    decreases |ctx|
  {
    if |ctx| > 0 {
      ReplaceAbsent(run, Placeholder(ctx[0].0), ctx[0].1);
      assert forall k :: 0 <= k < |ctx[1..]| ==> ctx[1..][k] == ctx[k + 1];
      RunWithoutTokens(run, ctx[1..]);
    }
  }

  /** `replace_placeholders_in_table`: every paragraph of every cell, row by row. */
  function ReplaceInTable(t: Table, ctx: Context): (u: Table)
    ensures |u.rows| == |t.rows|
    ensures forall r :: 0 <= r < |t.rows| ==> |u.rows[r]| == |t.rows[r]|
    ensures forall r, c :: 0 <= r < |t.rows| && 0 <= c < |t.rows[r]| ==>
      |u.rows[r][c].paragraphs| == |t.rows[r][c].paragraphs|
    ensures forall r, c, k :: 0 <= r < |t.rows| && 0 <= c < |t.rows[r]| && 0 <= k < |t.rows[r][c].paragraphs| ==>
      u.rows[r][c].paragraphs[k] == ReplaceInParagraph(t.rows[r][c].paragraphs[k], ctx)
  {
    Table(seq(|t.rows|, r requires 0 <= r < |t.rows| =>
      seq(|t.rows[r]|, c requires 0 <= c < |t.rows[r]| => ReplaceInCell(t.rows[r][c], ctx))))
  }

  function ReplaceInCell(cell: TableCell, ctx: Context): (d: TableCell)
    ensures |d.paragraphs| == |cell.paragraphs|
    ensures forall k :: 0 <= k < |cell.paragraphs| ==>
      d.paragraphs[k] == ReplaceInParagraph(cell.paragraphs[k], ctx)
  {
    TableCell(seq(|cell.paragraphs|, k requires 0 <= k < |cell.paragraphs| =>
      ReplaceInParagraph(cell.paragraphs[k], ctx)))
  }

  /** The traversal of `fill_template`: the body paragraphs, then the tables. */
  function FillDocument(doc: Document, ctx: Context): (d: Document)
    ensures |d.paragraphs| == |doc.paragraphs| && |d.tables| == |doc.tables|
    ensures forall k :: 0 <= k < |doc.paragraphs| ==>
      d.paragraphs[k] == ReplaceInParagraph(doc.paragraphs[k], ctx)
    ensures forall k :: 0 <= k < |doc.tables| ==> d.tables[k] == ReplaceInTable(doc.tables[k], ctx)
  {
    Document(
      seq(|doc.paragraphs|, k requires 0 <= k < |doc.paragraphs| => ReplaceInParagraph(doc.paragraphs[k], ctx)),
      seq(|doc.tables|, k requires 0 <= k < |doc.tables| => ReplaceInTable(doc.tables[k], ctx)))
  }

  /**
   `fill_template`: the template is `None` when it is missing or cannot be loaded, and
   `saved` says whether writing the result succeeded; the result is the written document.
   */
  function FillTemplate(template: Option<Document>, ctx: Context, saved: bool): (r: Option<Document>)
    ensures r.Some? <==> template.Some? && saved
    ensures r.Some? ==> r.value == FillDocument(template.value, ctx)
  {
    if template.None? || !saved then None else Some(FillDocument(template.value, ctx))
  }

  /**
   Body paragraphs and table-cell paragraphs are treated alike: every run anywhere in the
   document becomes `RunResult` of its own text, and no paragraph gains or loses runs.
   */
  lemma FillDocumentRuns(doc: Document, ctx: Context)
    ensures var d := FillDocument(doc, ctx);
      && (forall k, i :: 0 <= k < |doc.paragraphs| && 0 <= i < |doc.paragraphs[k].runs| ==>
            |d.paragraphs[k].runs| == |doc.paragraphs[k].runs|
            && d.paragraphs[k].runs[i] == RunResult(doc.paragraphs[k].runs[i], ctx))
      && (forall t, r, c, k, i :: HasCellParagraph(doc, t, r, c, k) && 0 <= i < |CellParagraph(doc, t, r, c, k).runs| ==>
            |CellParagraph(d, t, r, c, k).runs| == |CellParagraph(doc, t, r, c, k).runs|
            && CellParagraph(d, t, r, c, k).runs[i] == RunResult(CellParagraph(doc, t, r, c, k).runs[i], ctx))
  {
    var d := FillDocument(doc, ctx);
    forall t, r, c, k | HasCellParagraph(doc, t, r, c, k)
      ensures CellParagraph(d, t, r, c, k) == ReplaceInParagraph(CellParagraph(doc, t, r, c, k), ctx)
    {
    }
  }

  predicate HasCellParagraph(doc: Document, t: nat, r: nat, c: nat, k: nat) {
    t < |doc.tables| && r < |doc.tables[t].rows| && c < |doc.tables[t].rows[r]|
    && k < |doc.tables[t].rows[r][c].paragraphs|
  }

  /** Paragraph `k` of cell `c` in row `r` of table `t`, or an empty paragraph when there is none. */
  function CellParagraph(doc: Document, t: nat, r: nat, c: nat, k: nat): Paragraph {
    if HasCellParagraph(doc, t, r, c, k) then doc.tables[t].rows[r][c].paragraphs[k]
    else Paragraph([])
  }

  /** An empty context leaves the whole document as it was. */
  lemma EmptyContextIdentity(doc: Document)
    ensures FillDocument(doc, []) == doc
  {
    var d := FillDocument(doc, []);
    forall k | 0 <= k < |doc.tables| ensures d.tables[k] == doc.tables[k] {
      var t := doc.tables[k];
      var u := d.tables[k];
      forall r | 0 <= r < |t.rows| ensures u.rows[r] == t.rows[r] {
        forall c | 0 <= c < |t.rows[r]| ensures u.rows[r][c] == t.rows[r][c] {
          assert u.rows[r][c].paragraphs == t.rows[r][c].paragraphs;
        }
      }
    }
  }

  /** A placeholder split over two runs is in the paragraph text yet stays unreplaced. */
  lemma SplitPlaceholderKept()
    ensures Contains(ParagraphText(Paragraph(["{FI", "O}"])), Placeholder("FIO"))
    ensures ReplaceInParagraph(Paragraph(["{FI", "O}"]), [("FIO", "Иванов")]) == Paragraph(["{FI", "O}"])
  {
    var p := Paragraph(["{FI", "O}"]);
    assert ParagraphText(p) == "{FIO}" by {
      assert Concat(p.runs[..1]) == "{FI";
    }
    ContainsAt("{FIO}", Placeholder("FIO"), 0);
    var ph := Placeholder("FIO");
    NotContainsShort("{FI", ph);
    NotContainsShort("O}", ph);
    RunWithoutTokens("{FI", [("FIO", "Иванов")]);
    RunWithoutTokens("O}", [("FIO", "Иванов")]);
    var q := ReplaceInParagraph(p, [("FIO", "Иванов")]);
    assert q.runs == p.runs;
  }

  lemma NotContainsShort(s: String, p: String)
    requires |s| < |p|
    ensures !Contains(s, p)
  {
    if Contains(s, p) {
      var i := ContainsWitness(s, p);
    }
  }

  /** A run that is exactly a placeholder becomes its value, and neighbouring runs without it stay. */
  lemma SingleRunReplaced(before: String, key: String, value: String, after: String)
    requires !Contains(before, Placeholder(key)) && !Contains(after, Placeholder(key))
    ensures ReplaceInParagraph(Paragraph([before, Placeholder(key), after]), [(key, value)])
      == Paragraph([before, value, after])
  {
    var ctx: Context := [(key, value)];
    var runs := [before, Placeholder(key), after];
    RunWithoutTokens(before, ctx);
    RunWithoutTokens(after, ctx);
    ReplaceWhole(Placeholder(key), value);
    assert RunResult(runs[1], ctx) == value;
    var q := ReplaceInParagraph(Paragraph(runs), ctx);
    assert q.runs == [before, value, after];
  }

  /** The label of the example paragraph `Клиент: {FIO}!` holds no placeholder. */
  lemma LabelHasNoPlaceholder()
    ensures !Contains("Клиент: ", Placeholder("FIO"))
  {
    var s := "Клиент: ";
    assert forall i :: 0 <= i < |s| ==> s[i] != '{';
    NoOpenBrace(s, Placeholder("FIO"));
  }

  /** The paragraph `Клиент: {FIO}!` with the placeholder in a run of its own is filled in. */
  lemma SingleRunExample()
    ensures ReplaceInParagraph(Paragraph(["Клиент: ", "{FIO}", "!"]), [("FIO", "Иванов")])
      == Paragraph(["Клиент: ", "Иванов", "!"])
  {
    LabelHasNoPlaceholder();
    NotContainsShort("!", Placeholder("FIO"));
    assert Placeholder("FIO") == "{FIO}";
    SingleRunReplaced("Клиент: ", "FIO", "Иванов", "!");
  }

  /** A run that is exactly the placeholder becomes exactly the value. */
  lemma ReplaceWhole(p: String, v: String)
    requires |p| > 0
    ensures ReplaceAll(p, p, v) == v
  {
    assert StartsWith(p, p);
    assert p[|p|..] == [];
    assert v + [] == v;
  }

  lemma NoOpenBrace(s: String, p: String)
    requires |p| > 0 && forall i :: 0 <= i < |s| ==> s[i] != p[0]
    ensures !Contains(s, p)
  {
    if Contains(s, p) {
      var i := ContainsWitness(s, p);
    }
  }
}
