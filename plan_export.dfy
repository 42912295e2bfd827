/**
 * The text transform behind the lesson plan's "export to PDF": the generated
 * plan has its `**bold**` runs and its 40-underscore separators turned into
 * markup, is cut into lines at '\n', and every line becomes one block whose
 * kind (date heading, bullet, topic, plain) is read off its trimmed text.
 * Markup is kept as a structured value: a block is its kind and its line.
 */
module PlanExport {
  import opened Wrappers
  import opened Text

  const BoldOpen: string := "<b>"
  const BoldClose: string := "</b>"
  /** The horizontal rule that replaces a separator (its inline style is not modelled). */
  const RuleMark: string := "<hr/>"
  const RuleLength: nat := 40

  /** The separator the generator is asked to draw between lessons: 40 underscores. */
  function Rule(): (r: string)
    ensures |r| == RuleLength && '\n' !in r
  {
    Repeat('_', RuleLength)
  }

  // ---------------------------------------------------------------------------
  // .replace(/\*\*(.*?)\*\*/g, '<b>$1</b>')
  // ---------------------------------------------------------------------------

  predicate NoTerminator(s: string) {
    forall i :: 0 <= i < |s| ==> !IsLineTerminator(s[i])
  }

  predicate StarsAt(t: string, j: int) {
    0 <= j && j + 1 < |t| && t[j] == '*' && t[j + 1] == '*'
  }

  /**
   * Where the lazy `(.*?)\*\*` closes when tried on `t`: the first `**` in `t`
   * that is reached before any line terminator (`.` matches none of them).
   */
  function CloseBold(t: string): (r: Option<nat>)
    ensures r.Some? ==> StarsAt(t, r.value) && NoTerminator(t[..r.value])
    ensures r.Some? ==> forall j :: 0 <= j < r.value ==> !StarsAt(t, j)
    ensures r.None? ==> forall j :: StarsAt(t, j) ==> !NoTerminator(t[..j])
    decreases |t|
  {
    if |t| < 2 then None
    else if t[0] == '*' && t[1] == '*' then Some(0)
    else if IsLineTerminator(t[0]) then
      assert forall j :: StarsAt(t, j) ==> t[..j][0] == t[0];
      None
    else
      match CloseBold(t[1..])
      case None =>
        assert forall j :: StarsAt(t, j) ==> j >= 1 && StarsAt(t[1..], j - 1) && t[..j][1..] == t[1..][..j - 1];
        None
      case Some(k) =>
        assert t[..k + 1] == [t[0]] + t[1..][..k];
        assert forall j :: 1 <= j < k + 1 ==> (StarsAt(t, j) <==> StarsAt(t[1..], j - 1));
        Some(k + 1)
  }

  /** The global, left-to-right bold replacement: a `**` with a closing `**` later on its line opens a bold run. */
  function ReplaceBold(s: string): string
    decreases |s|
  {
    if s == [] then ""
    else if StarsAt(s, 0) && CloseBold(s[2..]).Some? then
      var j := CloseBold(s[2..]).value;
      BoldOpen + s[2..2 + j] + BoldClose + ReplaceBold(s[2 + j + 2..])
    else [s[0]] + ReplaceBold(s[1..])
  }

  // ---------------------------------------------------------------------------
  // .replace(/_{40}/g, '<hr/>')
  // ---------------------------------------------------------------------------

  /** The global, left-to-right, non-overlapping separator replacement. */
  function ReplaceRule(s: string): string
    decreases |s|
  {
    if s == [] then ""
    else if StartsWith(s, Rule()) then RuleMark + ReplaceRule(s[RuleLength..])
    else [s[0]] + ReplaceRule(s[1..])
  }

  /** Both replacements, in the order they are applied. */
  function Markup(s: string): string {
    ReplaceRule(ReplaceBold(s))
  }

  // ---------------------------------------------------------------------------
  // Line classification
  // ---------------------------------------------------------------------------

  datatype LineKind = DateHeading | Bullet | Topic | Plain

  /** One exported block: the (untrimmed) line and the style chosen for it. */
  datatype PlanBlock = PlanBlock(kind: LineKind, line: string)

  /** `/^\d{1,2}\/\d{1,2}/`: one or two digits, a slash, a digit. */
  predicate StartsWithDate(t: string) {
    (|t| >= 3 && IsDigit(t[0]) && t[1] == '/' && IsDigit(t[2])) ||
    (|t| >= 4 && IsDigit(t[0]) && IsDigit(t[1]) && t[2] == '/' && IsDigit(t[3]))
  }

  function KindOf(t: string): LineKind {
    if StartsWithDate(t) then DateHeading
    else if StartsWith(t, "\U{2022}") || StartsWith(t, "*") then Bullet
    else if StartsWith(t, "Tema:") then Topic
    else Plain
  }

  /** The block for one line: the first rule that the trimmed line satisfies decides its kind. */
  function Classify(line: string): (b: PlanBlock)
    ensures b.line == line
    ensures b.kind == DateHeading <==> StartsWithDate(Trim(line))
    ensures b.kind == Bullet <==> !StartsWithDate(Trim(line)) && (StartsWith(Trim(line), "\U{2022}") || StartsWith(Trim(line), "*"))
    ensures b.kind == Topic <==> !StartsWithDate(Trim(line)) && !(StartsWith(Trim(line), "\U{2022}") || StartsWith(Trim(line), "*")) && StartsWith(Trim(line), "Tema:")
    ensures b.kind == Plain <==> !StartsWithDate(Trim(line)) && !(StartsWith(Trim(line), "\U{2022}") || StartsWith(Trim(line), "*")) && !StartsWith(Trim(line), "Tema:")
  {
    PlanBlock(KindOf(Trim(line)), line)
  }

  function MapClassify(lines: seq<string>): (r: seq<PlanBlock>)
    ensures |r| == |lines|
    ensures forall k :: 0 <= k < |lines| ==> r[k] == Classify(lines[k])
  {
    seq(|lines|, k requires 0 <= k < |lines| => Classify(lines[k]))
  }

  /** The body of the exported plan: markup applied, then one block per '\n'-separated line. */
  function ExportBlocks(plano: string): seq<PlanBlock> {
    MapClassify(Split(Markup(plano), '\n'))
  }

  // ---------------------------------------------------------------------------
  // Header and document
  // ---------------------------------------------------------------------------

  function Reverse<T>(s: seq<T>): (r: seq<T>)
    ensures |r| == |s|
    ensures forall i :: 0 <= i < |s| ==> r[i] == s[|s| - 1 - i]
  {
    if s == [] then [] else Reverse(s[1..]) + [s[0]]
  }

  /** `s.split('-').reverse().join('/')`: how the header prints a period bound. */
  function DisplayDate(s: string): string {
    Join(Reverse(Split(s, '-')), "/")
  }

  datatype PlanDocument = PlanDocument(
    fileName: string,
    titulo: string,
    professor: string,
    inicio: string,
    fim: string,
    corpo: seq<PlanBlock>)

  /** What the export hands to the PDF writer. */
  function ExportarPdf(planoGerado: string, tipo: string, disciplina: string, anoSerie: string,
                       professor: string, dataInicio: string, dataFim: string): (doc: PlanDocument)
    ensures doc.corpo == ExportBlocks(planoGerado)
    ensures doc.inicio == DisplayDate(dataInicio) && doc.fim == DisplayDate(dataFim)
  {
    PlanDocument(
      "Plano_" + disciplina + "_" + anoSerie + ".pdf",
      "Planejamento " + tipo + " \U{2013} " + disciplina + " \U{2013} " + anoSerie,
      professor,
      DisplayDate(dataInicio),
      DisplayDate(dataFim),
      ExportBlocks(planoGerado))
  }

  /** The markup of each line, in order. */
  function MapMarkup(lines: seq<string>): (r: seq<string>)
    ensures |r| == |lines|
    ensures forall k :: 0 <= k < |lines| ==> r[k] == Markup(lines[k])
  {
    if lines == [] then [] else [Markup(lines[0])] + MapMarkup(lines[1..])
  }
}

/** What the export promises: markup works line by line, and what it does to the lines the prompt asks for. */
module PlanExportFacts {
  import opened Wrappers
  import opened Text
  import opened PlanExport

  // ---------------------------------------------------------------------------
  // Properties
  // ---------------------------------------------------------------------------

  /** A closing `**` found on `t` is found at the same place when more lines follow. */
  lemma {:induction false} CloseBoldLocal(t: string, b: string)
    requires '\n' !in t
    ensures CloseBold(t + "\n" + b) == CloseBold(t)
    decreases |t|
  {
    var s := t + "\n" + b;
    if |t| < 2 {
      if |t| == 1 {
        assert s[1] == '\n';
        assert s[1..] == "\n" + b;
        assert CloseBold(s[1..]) == None;
      } else {
        assert s == "\n" + b;
      }
    } else if t[0] == '*' && t[1] == '*' {
    } else if IsLineTerminator(t[0]) {
    } else {
      Tail(t, b);
      CloseBoldLocal(t[1..], b);
    }
  }

  /** Before its line ends, a line starts a bold run exactly when it does with more lines after it. */
  lemma {:induction false} BoldHeadLocal(a: string, b: string)
    requires '\n' !in a && |a| >= 1
    ensures var s := a + "\n" + b;
      StarsAt(s, 0) == StarsAt(a, 0) &&
      (StarsAt(a, 0) ==> s[2..] == a[2..] + "\n" + b && CloseBold(s[2..]) == CloseBold(a[2..]))
  {
    var s := a + "\n" + b;
    if |a| == 1 {
      assert s[1] == '\n';
    } else {
      assert s[0] == a[0] && s[1] == a[1];
      if StarsAt(a, 0) {
        assert s[2..] == a[2..] + "\n" + b;
        assert '\n' !in a[2..] by { assert forall i :: 0 <= i < |a| - 2 ==> a[2..][i] == a[i + 2]; }
        CloseBoldLocal(a[2..], b);
      }
    }
  }

  /** Bold runs never cross a line break: the replacement works line by line. */
  lemma {:induction false} ReplaceBoldLines(a: string, b: string)
    requires '\n' !in a
    ensures ReplaceBold(a + "\n" + b) == ReplaceBold(a) + "\n" + ReplaceBold(b)
    decreases |a|
  {
    var s := a + "\n" + b;
    if a == [] {
      assert s == "\n" + b && s[1..] == b;
    } else {
      BoldHeadLocal(a, b);
      if StarsAt(a, 0) && CloseBold(a[2..]).Some? {
        var j := CloseBold(a[2..]).value;
        var rest := a[2 + j + 2..];
        ReplaceBoldRun(a, b, j);
        ReplaceBoldLines(rest, b);
        var x := BoldOpen + a[2..2 + j] + BoldClose;
        BoldStep(a, j);
        BoldStep(s, j);
        Assoc(x, ReplaceBold(rest), ReplaceBold(b));
      } else {
        Tail(a, b);
        ReplaceBoldLines(a[1..], b);
        PlainStep(a);
        PlainStep(s);
        Assoc([a[0]], ReplaceBold(a[1..]), ReplaceBold(b));
      }
    }
  }

  /** The bold replacement at a `**` that closes `j` characters later. */
  lemma BoldStep(s: string, j: nat)
    requires StarsAt(s, 0) && CloseBold(s[2..]) == Some(j)
    ensures ReplaceBold(s) == BoldOpen + s[2..2 + j] + BoldClose + ReplaceBold(s[2 + j + 2..])
  {
  }

  /** The bold replacement where no bold run opens: the first character is kept. */
  lemma PlainStep(s: string)
    requires s != [] && !(StarsAt(s, 0) && CloseBold(s[2..]).Some?)
    ensures ReplaceBold(s) == [s[0]] + ReplaceBold(s[1..])
  {
  }

  lemma Assoc(x: string, y: string, z: string)
    ensures x + (y + "\n" + z) == (x + y) + "\n" + z
  {
  }

  lemma ReplaceBoldRun(a: string, b: string, j: nat)
    requires '\n' !in a && 2 + j + 2 <= |a|
    ensures var s := a + "\n" + b;
      s[2..2 + j] == a[2..2 + j] && s[2 + j + 2..] == a[2 + j + 2..] + "\n" + b && '\n' !in a[2 + j + 2..]
  {
    var rest := a[2 + j + 2..];
    assert forall i :: 0 <= i < |rest| ==> rest[i] == a[i + 2 + j + 2];
  }

  /** Separators never cross a line break either. */
  lemma {:induction false} ReplaceRuleLines(a: string, b: string)
    requires '\n' !in a
    ensures ReplaceRule(a + "\n" + b) == ReplaceRule(a) + "\n" + ReplaceRule(b)
    decreases |a|
  {
    var s := a + "\n" + b;
    RuleHeadLocal(a, b);
    if a == [] {
      assert s[1..] == b;
    } else if StartsWith(a, Rule()) {
      var rest := a[RuleLength..];
      RuleRest(a, b);
      ReplaceRuleLines(rest, b);
    } else {
      Tail(a, b);
      ReplaceRuleLines(a[1..], b);
    }
  }

  /** Whether a separator starts a line does not depend on the lines after it. */
  lemma RuleHeadLocal(a: string, b: string)
    requires '\n' !in a
    ensures StartsWith(a + "\n" + b, Rule()) == StartsWith(a, Rule())
  {
    var s := a + "\n" + b;
    if |a| >= RuleLength {
      assert s[..RuleLength] == a[..RuleLength];
    } else {
      assert !StartsWith(s, Rule()) by { assert s[|a|] == '\n' && Rule()[|a|] == '_'; }
    }
  }

  /** What follows a separator at the head of a line. */
  lemma RuleRest(a: string, b: string)
    requires '\n' !in a && |a| >= RuleLength
    ensures (a + "\n" + b)[RuleLength..] == a[RuleLength..] + "\n" + b && '\n' !in a[RuleLength..]
  {
    var rest := a[RuleLength..];
    assert forall i :: 0 <= i < |rest| ==> rest[i] == a[i + RuleLength];
  }

  /** A piece of a line holds no line break. */
  lemma SliceNoBreak(s: string, i: nat, j: nat)
    requires '\n' !in s && i <= j <= |s|
    ensures '\n' !in s[i..j]
  {
    assert forall k :: 0 <= k < j - i ==> s[i..j][k] == s[i + k];
  }

  /** What follows the first character of a line. */
  lemma Tail(a: string, b: string)
    requires '\n' !in a && a != []
    ensures (a + "\n" + b)[1..] == a[1..] + "\n" + b && '\n' !in a[1..]
  {
    assert forall i :: 0 <= i < |a| - 1 ==> a[1..][i] == a[i + 1];
  }

  /** The replacements add no line break to a line. */
  lemma {:induction false} ReplaceBoldNoBreak(s: string)
    requires '\n' !in s
    ensures '\n' !in ReplaceBold(s)
    decreases |s|
  {
    if s != [] {
      if StarsAt(s, 0) && CloseBold(s[2..]).Some? {
        var j := CloseBold(s[2..]).value;
        var rest := s[2 + j + 2..];
        SliceNoBreak(s, 2, 2 + j);
        SliceNoBreak(s, 2 + j + 2, |s|);
        ReplaceBoldNoBreak(rest);
        BoldStep(s, j);
        TagsNoBreak();
        NoBreakJoin(BoldOpen, s[2..2 + j]);
        NoBreakJoin(BoldOpen + s[2..2 + j], BoldClose);
        NoBreakJoin(BoldOpen + s[2..2 + j] + BoldClose, ReplaceBold(rest));
      } else {
        SliceNoBreak(s, 1, |s|);
        ReplaceBoldNoBreak(s[1..]);
        PlainStep(s);
        NoBreakJoin([s[0]], ReplaceBold(s[1..]));
      }
    }
  }

  lemma TagsNoBreak()
    ensures '\n' !in BoldOpen && '\n' !in BoldClose
  {
  }

  lemma NoBreakJoin(a: string, b: string)
    requires '\n' !in a && '\n' !in b
    ensures '\n' !in a + b
  {
  }

  lemma {:induction false} ReplaceRuleNoBreak(s: string)
    requires '\n' !in s
    ensures '\n' !in ReplaceRule(s)
    decreases |s|
  {
    if s != [] {
      if StartsWith(s, Rule()) {
        var rest := s[RuleLength..];
        assert '\n' !in rest by { assert forall i :: 0 <= i < |rest| ==> rest[i] == s[i + RuleLength]; }
        ReplaceRuleNoBreak(rest);
      } else {
        assert '\n' !in s[1..] by { assert forall i :: 0 <= i < |s| - 1 ==> s[1..][i] == s[i + 1]; }
        ReplaceRuleNoBreak(s[1..]);
      }
    }
  }

  /**
   * The markup applied to the whole plan and then split is the markup applied
   * to each line of the plan: line k of the export is line k of the plan, marked up.
   */
  lemma {:induction false} MarkupByLine(plano: string)
    ensures Split(Markup(plano), '\n') == MapMarkup(Split(plano, '\n'))
    decreases |plano|
  {
    if '\n' !in plano {
      ReplaceBoldNoBreak(plano);
      ReplaceRuleNoBreak(ReplaceBold(plano));
    } else {
      var i := IndexOf(plano, '\n');
      var a, b := plano[..i], plano[i + 1..];
      assert plano == a + "\n" + b;
      ReplaceBoldLines(a, b);
      ReplaceBoldNoBreak(a);
      ReplaceRuleLines(ReplaceBold(a), ReplaceBold(b));
      ReplaceRuleNoBreak(ReplaceBold(a));
      SplitFirst(Markup(a), Markup(b), '\n');
      MarkupByLine(b);
      assert Split(plano, '\n') == [a] + Split(b, '\n');
    }
  }

  /**
   * The export has exactly one block per line of the plan (one more than its
   * number of '\n'), and block k is line k, marked up and classified.
   */
  lemma ExportLineByLine(plano: string)
    ensures |ExportBlocks(plano)| == |Split(plano, '\n')| == Count(plano, '\n') + 1
    ensures var lines := Split(plano, '\n');
      forall k :: 0 <= k < |lines| ==> ExportBlocks(plano)[k] == Classify(Markup(lines[k]))
  {
    MarkupByLine(plano);
    SplitCount(plano, '\n');
  }

  /** A line without '*' is left alone by the bold replacement. */
  lemma {:induction false} ReplaceBoldIdentity(s: string)
    requires '*' !in s
    ensures ReplaceBold(s) == s
    decreases |s|
  {
    if s != [] {
      assert '*' !in s[1..] by { assert forall i :: 0 <= i < |s| - 1 ==> s[1..][i] == s[i + 1]; }
      ReplaceBoldIdentity(s[1..]);
    }
  }

  /** A line without '_' is left alone by the separator replacement. */
  lemma {:induction false} ReplaceRuleIdentity(s: string)
    requires '_' !in s
    ensures ReplaceRule(s) == s
    decreases |s|
  {
    if s != [] {
      assert !StartsWith(s, Rule()) by { assert Rule()[0] == '_'; }
      assert '_' !in s[1..] by { assert forall i :: 0 <= i < |s| - 1 ==> s[1..][i] == s[i + 1]; }
      ReplaceRuleIdentity(s[1..]);
    }
  }

  /** A starred run on one line becomes a bold run. */
  lemma BoldRun(x: string)
    requires '*' !in x && NoTerminator(x)
    ensures ReplaceBold("**" + x + "**") == BoldOpen + x + BoldClose
  {
    var s := "**" + x + "**";
    var t := s[2..];
    assert t == x + "**";
    assert forall j :: 0 <= j < |x| ==> !StarsAt(t, j) by {
      assert forall j :: 0 <= j < |x| ==> t[j] == x[j];
    }
    assert StarsAt(t, |x|) && t[..|x|] == x;
    assert CloseBold(t) == Some(|x|);
    assert s[2..2 + |x|] == x;
    assert s[2 + |x| + 2..] == [];
  }

  /** The separator the prompt asks for becomes exactly one rule. */
  lemma RuleBecomesMark()
    ensures ReplaceRule(Rule()) == RuleMark
  {
    assert StartsWith(Rule(), Rule());
    assert Rule()[RuleLength..] == [];
  }

  /** Indentation does not change the kind of a line. */
  lemma ClassifyIgnoresIndent(w: string, line: string)
    requires AllSpace(w)
    ensures Classify(w + line).kind == Classify(line).kind
  {
    var w1, w2 := TrimPieces(line);
    var t := Trim(line);
    Regroup(w, w1, t, w2);
    TrimPadded(w + w1, t, w2);
  }

  lemma Regroup(w: string, w1: string, t: string, w2: string)
    requires AllSpace(w) && AllSpace(w1)
    ensures AllSpace(w + w1)
    ensures w + (w1 + t + w2) == (w + w1) + t + w2
  {
  }

  /** A lesson date such as "16/02" is a heading; written in bold, as the prompt asks, it is a plain line. */
  lemma BoldDateIsPlain()
    ensures Classify("16/02").kind == DateHeading
    ensures Classify(Markup("**16/02**")).kind == Plain
  {
    var date := "16/02";
    assert date[0] == '1' && date[1] == '6' && date[2] == '/' && date[3] == '0' && date[4] == '2';
    assert "**16/02**" == "**" + date + "**";
    BoldHeadingIsPlain(date);
  }

  /** Any date heading written in bold loses its heading kind. */
  lemma BoldHeadingIsPlain(x: string)
    requires x != [] && !IsSpace(x[0]) && !IsSpace(x[|x| - 1])
    requires StartsWithDate(x) && '*' !in x && '_' !in x && NoTerminator(x)
    ensures Classify(x).kind == DateHeading
    ensures Classify(Markup("**" + x + "**")).kind == Plain
  {
    TrimIdempotentOn(x);
    BoldMarkup(x);
    var bold := BoldOpen + x + BoldClose;
    assert bold[0] == '<' && bold[|bold| - 1] == '>';
    TaggedLineIsPlain(bold);
  }

  /** A line that opens with a tag matches none of the styled patterns. */
  lemma TaggedLineIsPlain(t: string)
    requires |t| >= 1 && t[0] == '<' && !IsSpace(t[|t| - 1])
    ensures Classify(t).kind == Plain
  {
    TrimIdempotentOn(t);
    assert !StartsWith(t, "\U{2022}") && !StartsWith(t, "*") && !StartsWith(t, "Tema:");
  }

  /** A starred run without separators is exactly one bold run after the whole markup pass. */
  lemma BoldMarkup(x: string)
    requires '*' !in x && '_' !in x && NoTerminator(x)
    ensures Markup("**" + x + "**") == BoldOpen + x + BoldClose
  {
    BoldRun(x);
    var bold := BoldOpen + x + BoldClose;
    assert '_' !in bold;
    ReplaceRuleIdentity(bold);
  }

  lemma TrimIdempotentOn(t: string)
    requires t != [] && !IsSpace(t[0]) && !IsSpace(t[|t| - 1])
    ensures Trim(t) == t
  {
    assert [] + t + [] == t;
    TrimPadded([], t, []);
  }

  /** The header prints an ISO date `Y-M-D` as `D/M/Y`. */
  lemma DisplayDateIso(y: string, m: string, d: string)
    requires '-' !in y && '-' !in m && '-' !in d
    ensures DisplayDate(y + "-" + m + "-" + d) == d + "/" + m + "/" + y
  {
    SplitThree(y, m, d, '-');
    JoinReversed(y, m, d);
  }

  lemma JoinReversed(y: string, m: string, d: string)
    ensures Join(Reverse([y, m, d]), "/") == d + "/" + m + "/" + y
  {
    var r := Reverse([y, m, d]);
    assert r == [d, m, y];
    assert r[1..] == [m, y] && r[1..][1..] == [y];
    assert Join([m, y], "/") == m + "/" + y;
    assert Join(r, "/") == d + "/" + (m + "/" + y);
  }
}
