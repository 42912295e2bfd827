/**
 * The batch entry of the calendar screen: free text, one event per line,
 * written as `d/m - text`, turned into `{data: "DD/MM", nome}` entries for
 * the selected legend category (components/CalendarView.tsx, handleSalvarLote).
 *
 * The line pattern is the regular expression
 * `(\d{1,2})\/(\d{1,2})(?:\s*[-–—:]\s*(.*))?`, unanchored: it is tried at
 * each position of the line from the left and the first position where it
 * matches wins.
 */
module BatchParser {
  import opened Wrappers
  import opened Text
  import opened Seqs
  import opened Types

  /** The groups of one match: day digits, month digits and the trailing text (absent when the optional group is skipped). */
  datatype DateMatch = DateMatch(day: string, month: string, extra: Option<string>)

  /** `[-–—:]`: hyphen, en dash, em dash or colon. */
  predicate IsSeparator(c: char) {
    c == '-' || c == '\U{2013}' || c == '\U{2014}' || c == ':'
  }

  /** How many characters `.*` takes from the front of `s`: everything up to the first line terminator. */
  function LineRun(s: string): (n: nat)
    ensures n <= |s|
    ensures forall i :: 0 <= i < n ==> !IsLineTerminator(s[i])
    ensures n < |s| ==> IsLineTerminator(s[n])
  {
    if s == [] || IsLineTerminator(s[0]) then 0 else 1 + LineRun(s[1..])
  }

  /**
   * Length of the day group `\d{1,2}` when the pattern starts at `p` and a `/`
   * follows it, 0 otherwise. Two digits are tried first; backing off to one
   * digit cannot help, since the second digit is not a `/`.
   */
  function DayLength(s: string, p: nat): (n: nat)
    ensures n <= 2
    ensures n > 0 ==> p + n < |s| && AllDigits(s[p..p + n]) && s[p + n] == '/'
  {
    if p + 1 < |s| && IsDigit(s[p]) && s[p + 1] == '/' then 1
    else if p + 2 < |s| && IsDigit(s[p]) && IsDigit(s[p + 1]) && s[p + 2] == '/' then 2
    else 0
  }

  /** The optional group `(?:\s*[-–—:]\s*(.*))?` tried at `r`: the captured text, or `None` when the group is skipped. */
  function Trailing(s: string, r: nat): (extra: Option<string>)
    requires r <= |s|
    ensures extra.Some? ==> forall i :: 0 <= i < |extra.value| ==> !IsLineTerminator(extra.value[i])
  {
    SeparatorAt(s, r + LeadingSpace(s[r..]))
  }

  /** The rest of the optional group once the white space ends at `q`: a separator there, then the captured text. */
  function SeparatorAt(s: string, q: nat): (extra: Option<string>)
    requires q <= |s|
    ensures extra.Some? ==> forall i :: 0 <= i < |extra.value| ==> !IsLineTerminator(extra.value[i])
  {
    if q < |s| && IsSeparator(s[q]) then Some(Captured(s[q + 1..])) else None
  }

  /** `\s*(.*)` after the separator: the white space is skipped and the rest of the line is captured. */
  function Captured(t: string): (x: string)
    ensures forall i :: 0 <= i < |x| ==> !IsLineTerminator(x[i])
  {
    var u := t[LeadingSpace(t)..];
    u[..LineRun(u)]
  }

  /** The match of the pattern starting exactly at position `p`, if there is one. */
  function MatchAt(s: string, p: nat): (m: Option<DateMatch>)
    ensures m.Some? ==> 1 <= |m.value.day| <= 2 && AllDigits(m.value.day)
    ensures m.Some? ==> 1 <= |m.value.month| <= 2 && AllDigits(m.value.month)
    ensures m.Some? ==> p < |s| && IsDigit(s[p])
  {
    var dl := DayLength(s, p);
    if dl == 0 then None
    else
      var q := p + dl + 1;
      if q < |s| && IsDigit(s[q]) then
        var ml := if q + 1 < |s| && IsDigit(s[q + 1]) then 2 else 1;
        assert AllDigits(s[q..q + ml]);
        Some(DateMatch(s[p..p + dl], s[q..q + ml], Trailing(s, q + ml)))
      else None
  }

  /**
   * `\d{1,2}\/\d` occurs at `p`: one or two digits, a slash and a digit,
   * which is where the pattern can start.
   */
  predicate DateAt(s: string, p: nat) {
    p < |s| && IsDigit(s[p]) &&
    ((p + 2 < |s| && s[p + 1] == '/' && IsDigit(s[p + 2])) ||
     (p + 3 < |s| && IsDigit(s[p + 1]) && s[p + 2] == '/' && IsDigit(s[p + 3])))
  }

  /**
   * The leftmost position at or after `p` where a date starts, and so where
   * the pattern matches: its optional tail never makes it fail
   * (`BatchParserFacts.MatchAtIffDate`).
   */
  function FirstMatchFrom(s: string, p: nat): (r: Option<nat>)
    requires p <= |s|
    ensures r.Some? ==> p <= r.value < |s| && DateAt(s, r.value)
    ensures r.Some? ==> forall q :: p <= q < r.value ==> !DateAt(s, q)
    ensures r.None? ==> forall q :: p <= q < |s| ==> !DateAt(s, q)
    decreases |s| - p
  {
    if p == |s| then None
    else if DateAt(s, p) then Some(p)
    else FirstMatchFrom(s, p + 1)
  }

  /** `line.match(pattern)`: the match at the leftmost position where there is one. */
  function Match(line: string): Option<DateMatch>
  {
    match FirstMatchFrom(line, 0)
    case None => None
    case Some(p) => MatchAt(line, p)
  }

  /** A canonical date key: two digits, a slash, two digits. */
  predicate IsDateKey(k: string) {
    |k| == 5 && IsDigit(k[0]) && IsDigit(k[1]) && k[2] == '/' && IsDigit(k[3]) && IsDigit(k[4])
  }

  /** `nome` is the category alone, or the category, " - " and a non-blank, trimmed, upper-case text. */
  predicate IsLabelOf(categoria: string, nome: string) {
    nome == categoria ||
    (StartsWith(nome, categoria + " - ") &&
     var t := nome[|categoria| + 3..];
     t != [] && Trim(t) == t && ToUpper(t) == t)
  }

  /** The label of one entry: the category, followed by the trailing text when that text is not blank. */
  function Label(categoria: string, extra: Option<string>): string
  {
    var texto := ToUpper(Trim(extra.GetOr("")));
    if texto != [] then categoria + " - " + texto else categoria
  }

  /** The date pattern matches somewhere in `linha`. */
  predicate HasDate(linha: string) {
    exists p :: 0 <= p < |linha| && MatchAt(linha, p).Some?
  }

  /** The entry one line yields: none without a date, else its zero-padded `DD/MM` key and its label. */
  function EntryOf(linha: string, categoria: string): Option<Entry>
  {
    match Match(linha)
    case None => None
    case Some(m) => Some(Entry(PadStart(m.day, 2, '0') + "/" + PadStart(m.month, 2, '0'), Label(categoria, m.extra)))
  }

  /** `l.trim()` is truthy: the line holds something other than white space. */
  predicate NotBlank(l: string) {
    Trim(l) != []
  }

  /** The lines of the input that are not blank (`split('\n').filter(l => l.trim())`). */
  function NonBlankLines(input: string): seq<string>
  {
    Filter(Split(input, '\n'), NotBlank)
  }

  /** The entries of a list of lines, in line order: the specification of the parsing loop. */
  function ParsedEntries(linhas: seq<string>, categoria: string): seq<Entry>
  {
    FlatMap(linhas, PerLine(categoria))
  }

  /** The parse of one line as a function of the line. */
  function PerLine(categoria: string): string -> seq<Entry>
  {
    linha => LineEntries(linha, categoria)
  }

  /** The entries one line contributes: none or one. */
  function LineEntries(linha: string, categoria: string): seq<Entry>
  {
    match EntryOf(linha, categoria)
    case None => []
    case Some(e) => [e]
  }

  /** handleSalvarLote's parse: the non-blank lines of the input, then the loop over them. */
  method ParseLote(loteInput: string, categoria: string) returns (dados: seq<Entry>)
    ensures dados == ParsedEntries(NonBlankLines(loteInput), categoria)
  {
    var linhas := NonBlankLines(loteInput);
    dados := ParseLinhas(linhas, categoria);
  }

  /** The parsing loop: each line with a date pushes one entry; lines without a date are skipped. */
  method ParseLinhas(linhas: seq<string>, categoria: string) returns (dados: seq<Entry>)
    ensures dados == ParsedEntries(linhas, categoria)
  {
    dados := [];
    for i := 0 to |linhas|
      invariant dados == ParsedEntries(linhas[..i], categoria)
    {
      var m := EntryOf(linhas[i], categoria);
      ParsedEntriesStep(dados, linhas, i, categoria, m);
      if m.Some? {
        dados := dados + [m.value];
      }
    }
    WholePrefix(linhas);
  }

  lemma WholePrefix(linhas: seq<string>)
    ensures linhas[..|linhas|] == linhas
  {
  }

  /** One turn of the loop: a match pushes its entry, anything else leaves the entries as they are. */
  lemma ParsedEntriesStep(dados: seq<Entry>, linhas: seq<string>, i: nat, categoria: string, m: Option<Entry>)
    requires i < |linhas| && dados == ParsedEntries(linhas[..i], categoria) && m == EntryOf(linhas[i], categoria)
    ensures (if m.Some? then dados + [m.value] else dados) == ParsedEntries(linhas[..i + 1], categoria)
  {
    ParsedEntriesSnoc(linhas, i, categoria);
    if m.None? {
      assert dados + [] == dados;
    }
  }

  lemma ParsedEntriesSnoc(linhas: seq<string>, i: nat, categoria: string)
    requires i < |linhas|
    ensures ParsedEntries(linhas[..i + 1], categoria) == ParsedEntries(linhas[..i], categoria) + LineEntries(linhas[i], categoria)
  {
    assert linhas[..i + 1][..i] == linhas[..i];
  }
}

/** What the batch parse promises: the shape of each entry, line order, and blank lines. */
module BatchParserFacts {
  import opened Wrappers
  import opened Text
  import opened Seqs
  import opened Types
  import opened BatchParser

  /**
   * A line yields an entry exactly when the date pattern occurs in it; the
   * entry's key is then a canonical `DD/MM` key and its label is the category,
   * possibly followed by " - " and the trimmed, upper-cased trailing text.
   */
  lemma EntryOfShape(linha: string, categoria: string)
    ensures EntryOf(linha, categoria).Some? <==> HasDate(linha)
    ensures EntryOf(linha, categoria).Some? ==> IsDateKey(EntryOf(linha, categoria).value.data)
    ensures EntryOf(linha, categoria).Some? ==> IsLabelOf(categoria, EntryOf(linha, categoria).value.nome)
  {
    MatchIffHasDate(linha);
    match Match(linha)
    case None =>
    case Some(m) =>
      PaddedKey(m.day, m.month);
      LabelShape(categoria, m.extra);
  }

  /** The pattern matches at `p` exactly when a date starts there. */
  lemma MatchAtIffDate(s: string, p: nat)
    ensures MatchAt(s, p).Some? <==> DateAt(s, p)
  {
    DateAtDayLength(s, p);
  }

  /** A date starts at `p` exactly when a day group and its slash are there and a digit follows the slash. */
  lemma DateAtDayLength(s: string, p: nat)
    ensures DateAt(s, p) <==> DayLength(s, p) > 0 && p + DayLength(s, p) + 1 < |s| && IsDigit(s[p + DayLength(s, p) + 1])
  {
  }

  /**
   * The entry of a line whose leftmost date is `d/mo` at `p`: the key is those
   * digits, each padded to two, with no range check on day or month, and the
   * label is built from the optional group tried right after the month.
   */
  lemma EntryAt(linha: string, categoria: string, p: nat, d: string, mo: string)
    requires p + |d| + 1 + |mo| <= |linha|
    requires 1 <= |d| <= 2 && AllDigits(d) && 1 <= |mo| <= 2 && AllDigits(mo)
    requires linha[p..p + |d|] == d && linha[p + |d|] == '/' && linha[p + |d| + 1..p + |d| + 1 + |mo|] == mo
    requires |mo| == 1 ==> p + |d| + 2 == |linha| || !IsDigit(linha[p + |d| + 2])
    requires forall q :: 0 <= q < p ==> !DateAt(linha, q)
    ensures EntryOf(linha, categoria) ==
      Some(Entry(PadStart(d, 2, '0') + "/" + PadStart(mo, 2, '0'), Label(categoria, Trailing(linha, p + |d| + 1 + |mo|))))
  {
    GroupsAt(linha, p, d, mo);
    MatchAtIffDate(linha, p);
    FirstMatchIs(linha, 0, p);
    EntryOfMatch(linha, categoria, p, DateMatch(d, mo, Trailing(linha, p + |d| + 1 + |mo|)));
  }

  /** The entry built from the leftmost match. */
  lemma EntryOfMatch(linha: string, categoria: string, p: nat, m: DateMatch)
    requires FirstMatchFrom(linha, 0) == Some(p) && MatchAt(linha, p) == Some(m)
    ensures EntryOf(linha, categoria) == Some(Entry(PadStart(m.day, 2, '0') + "/" + PadStart(m.month, 2, '0'), Label(categoria, m.extra)))
  {
  }

  lemma GroupsAt(s: string, p: nat, d: string, mo: string)
    requires p + |d| + 1 + |mo| <= |s|
    requires 1 <= |d| <= 2 && AllDigits(d) && 1 <= |mo| <= 2 && AllDigits(mo)
    requires s[p..p + |d|] == d && s[p + |d|] == '/' && s[p + |d| + 1..p + |d| + 1 + |mo|] == mo
    requires |mo| == 1 ==> p + |d| + 2 == |s| || !IsDigit(s[p + |d| + 2])
    ensures MatchAt(s, p) == Some(DateMatch(d, mo, Trailing(s, p + |d| + 1 + |mo|)))
  {
    DayLengthOf(s, p, d);
    MonthLengthOf(s, p, |d|, mo);
    MatchAtOf(s, p, |d|, |mo|);
  }

  /** The day group `d` followed by a `/` at `p` is exactly what `DayLength` measures. */
  lemma DayLengthOf(s: string, p: nat, d: string)
    requires p + |d| < |s| && 1 <= |d| <= 2 && AllDigits(d)
    requires s[p..p + |d|] == d && s[p + |d|] == '/'
    ensures DayLength(s, p) == |d|
  {
    assert s[p] == d[0];
    if |d| == 2 {
      assert s[p + 1] == d[1];
    }
  }

  /** The month group `mo` after a day of length `dl` is the greedy one or two digits. */
  lemma MonthLengthOf(s: string, p: nat, dl: nat, mo: string)
    requires p + dl + 1 + |mo| <= |s| && 1 <= |mo| <= 2 && AllDigits(mo)
    requires s[p + dl + 1..p + dl + 1 + |mo|] == mo
    requires |mo| == 1 ==> p + dl + 2 == |s| || !IsDigit(s[p + dl + 2])
    ensures IsDigit(s[p + dl + 1])
    ensures (if p + dl + 2 < |s| && IsDigit(s[p + dl + 2]) then 2 else 1) == |mo|
  {
    assert s[p + dl + 1] == mo[0];
    if |mo| == 2 {
      assert s[p + dl + 2] == mo[1];
    }
  }

  /** `MatchAt` once the day length `dl` and the month length `ml` are known. */
  lemma MatchAtOf(s: string, p: nat, dl: nat, ml: nat)
    requires dl == DayLength(s, p) && dl > 0
    requires p + dl + 1 < |s| && IsDigit(s[p + dl + 1])
    requires ml == if p + dl + 2 < |s| && IsDigit(s[p + dl + 2]) then 2 else 1
    ensures MatchAt(s, p) == Some(DateMatch(s[p..p + dl], s[p + dl + 1..p + dl + 1 + ml], Trailing(s, p + dl + 1 + ml)))
  {
  }

  /** The leftmost date from `k` is at `p` when there is none in between. */
  lemma {:induction false} FirstMatchIs(s: string, k: nat, p: nat)
    requires k <= p && DateAt(s, p)
    requires forall q :: k <= q < p ==> !DateAt(s, q)
    ensures FirstMatchFrom(s, k) == Some(p)
    decreases p - k
  {
    if k < p {
      FirstMatchIs(s, k + 1, p);
    }
  }

  /** No range check: "40/13", day 40 of month 13, is kept as it is, with the bare category as label. */
  lemma NoRangeCheck(categoria: string)
    ensures EntryOf("40/13", categoria) == Some(Entry("40/13", categoria))
  {
    var s := "40/13";
    assert s[0..2] == "40" && s[2] == '/' && s[3..5] == "13";
    EntryAt(s, categoria, 0, "40", "13");
    TrailingSkipped(s, 5, 5);
    LabelOfNothing(categoria);
    FortyThirteenKey();
  }

  /** Without trailing text the label is the category alone. */
  lemma LabelOfNothing(categoria: string)
    ensures Label(categoria, None) == categoria
  {
    assert Trim("") == "";
  }

  lemma FortyThirteenKey()
    ensures PadStart("40", 2, '0') + "/" + PadStart("13", 2, '0') == "40/13"
  {
    assert PadStart("40", 2, '0') == "40";
    assert PadStart("13", 2, '0') == "13";
    assert "40" + "/" + "13" == "40/13";
  }

  /** `line.match` succeeds exactly when the pattern matches at some position. */
  lemma MatchIffHasDate(linha: string)
    ensures Match(linha).Some? <==> HasDate(linha)
  {
    match FirstMatchFrom(linha, 0)
    case None =>
      forall q | 0 <= q < |linha| ensures MatchAt(linha, q).None? {
        MatchAtIffDate(linha, q);
      }
    case Some(p) =>
      MatchAtIffDate(linha, p);
  }

  /** Zero-padding one or two digits on each side of the slash gives a canonical key. */
  lemma PaddedKey(d: string, m: string)
    requires 1 <= |d| <= 2 && AllDigits(d)
    requires 1 <= |m| <= 2 && AllDigits(m)
    ensures IsDateKey(PadStart(d, 2, '0') + "/" + PadStart(m, 2, '0'))
  {
    var a := PadStart(d, 2, '0');
    var b := PadStart(m, 2, '0');
    assert IsDigit(a[0]) && IsDigit(a[1]) by {
      if |d| == 1 { assert a[1..] == d; assert a[1] == d[0]; } else { assert a == d; }
    }
    assert IsDigit(b[0]) && IsDigit(b[1]) by {
      if |m| == 1 { assert b[1..] == m; assert b[1] == m[0]; } else { assert b == m; }
    }
    var k := a + "/" + b;
    assert k[0] == a[0] && k[1] == a[1] && k[2] == '/' && k[3] == b[0] && k[4] == b[1];
  }

  lemma LabelShape(categoria: string, extra: Option<string>)
    ensures IsLabelOf(categoria, Label(categoria, extra))
  {
    var u := ToUpper(Trim(extra.GetOr("")));
    if u != [] {
      UpperOfTrimmed(Trim(extra.GetOr("")));
      LabelOfText(categoria, u);
    }
  }

  /** Upper-casing a trimmed text leaves it trimmed, and upper-casing again changes nothing. */
  lemma UpperOfTrimmed(t: string)
    requires Trim(t) == t
    ensures Trim(ToUpper(t)) == ToUpper(t) && ToUpper(ToUpper(t)) == ToUpper(t)
  {
    TrimToUpper(t);
    ToUpperIdempotent(t);
  }

  /** The category, " - " and a trimmed, upper-case, non-empty text make a label of the category. */
  lemma LabelOfText(categoria: string, u: string)
    requires u != [] && Trim(u) == u && ToUpper(u) == u
    ensures IsLabelOf(categoria, categoria + " - " + u)
  {
    var nome := categoria + " - " + u;
    assert nome[..|categoria| + 3] == categoria + " - ";
    assert nome[|categoria| + 3..] == u;
  }


  // ---------------------------------------------------------------------------
  // Properties of the parse
  // ---------------------------------------------------------------------------

  /** Lines are parsed independently and their entries concatenated in line order. */
  lemma ParsedEntriesAppend(a: seq<string>, b: seq<string>, categoria: string)
    ensures ParsedEntries(a + b, categoria) == ParsedEntries(a, categoria) + ParsedEntries(b, categoria)
  {
    FlatMapAppend(a, b, PerLine(categoria));
  }

  /** A well-formed entry of category `categoria`: a canonical key and a label of that category. */
  predicate EntryOfCategory(e: Entry, categoria: string) {
    IsDateKey(e.data) && IsLabelOf(categoria, e.nome)
  }

  /** Each line yields at most one entry, and every entry has a canonical key and a label of the category. */
  lemma {:induction false} ParsedEntriesShape(linhas: seq<string>, categoria: string)
    ensures |ParsedEntries(linhas, categoria)| <= |linhas|
    ensures forall k :: 0 <= k < |ParsedEntries(linhas, categoria)| ==> EntryOfCategory(ParsedEntries(linhas, categoria)[k], categoria)
    decreases |linhas|
  {
    if linhas != [] {
      var init := linhas[..|linhas| - 1];
      var last := linhas[|linhas| - 1];
      ParsedEntriesShape(init, categoria);
      LineEntriesShape(last, categoria);
      AllOfCategoryAppend(ParsedEntries(init, categoria), LineEntries(last, categoria), categoria);
    }
  }

  lemma LineEntriesShape(linha: string, categoria: string)
    ensures |LineEntries(linha, categoria)| <= 1
    ensures forall k :: 0 <= k < |LineEntries(linha, categoria)| ==> EntryOfCategory(LineEntries(linha, categoria)[k], categoria)
  {
    EntryOfShape(linha, categoria);
  }

  lemma AllOfCategoryAppend(a: seq<Entry>, b: seq<Entry>, categoria: string)
    requires forall k :: 0 <= k < |a| ==> EntryOfCategory(a[k], categoria)
    requires forall k :: 0 <= k < |b| ==> EntryOfCategory(b[k], categoria)
    ensures forall k :: 0 <= k < |a + b| ==> EntryOfCategory((a + b)[k], categoria)
  {
    forall k | 0 <= k < |a + b| ensures EntryOfCategory((a + b)[k], categoria) {
      if k < |a| {
        assert (a + b)[k] == a[k];
      } else {
        assert (a + b)[k] == b[k - |a|];
      }
    }
  }

  /** A blank line holds no date, so it never yields an entry. */
  lemma BlankLineYieldsNothing(linha: string, categoria: string)
    requires AllSpace(linha)
    ensures EntryOf(linha, categoria) == None
  {
    forall p | 0 <= p < |linha| ensures MatchAt(linha, p).None? {
      NoMatchAtSpace(linha, p);
    }
    MatchIffHasDate(linha);
  }

  /** The pattern starts with a digit, so it never matches at white space. */
  lemma NoMatchAtSpace(s: string, p: nat)
    requires p < |s| && IsSpace(s[p])
    ensures MatchAt(s, p).None?
  {
  }

  /** Dropping blank lines first changes nothing: the entries are those of all the lines. */
  lemma {:induction false} BlankLinesIrrelevant(linhas: seq<string>, categoria: string)
    ensures ParsedEntries(Filter(linhas, NotBlank), categoria) == ParsedEntries(linhas, categoria)
    decreases |linhas|
  {
    if linhas != [] {
      var init := linhas[..|linhas| - 1];
      var last := linhas[|linhas| - 1];
      assert linhas == init + [last];
      FilterAppend(init, [last], NotBlank);
      ParsedEntriesAppend(Filter(init, NotBlank), Filter([last], NotBlank), categoria);
      BlankLinesIrrelevant(init, categoria);
      FilteredLine(last, categoria);
    }
  }

  lemma FilteredLine(linha: string, categoria: string)
    ensures ParsedEntries(Filter([linha], NotBlank), categoria) == LineEntries(linha, categoria)
  {
    FilterSingle(linha, NotBlank);
    if NotBlank(linha) {
      FlatMapSingle(linha, PerLine(categoria));
    } else {
      BlankLineYieldsNothing(linha, categoria);
    }
  }

  /** Blank input yields no entries (the caller then reports "no valid date"). */
  lemma BlankInputYieldsNothing(input: string, categoria: string)
    requires AllSpace(input)
    ensures ParsedEntries(NonBlankLines(input), categoria) == []
  {
    var linhas := Split(input, '\n');
    var p := NotBlank;
    forall k | 0 <= k < |linhas| ensures !p(linhas[k]) {
      PieceOfSpaceIsSpace(input, k);
    }
    FilterAll(linhas, p);
  }

  lemma {:induction false} PieceOfSpaceIsSpace(s: string, k: nat)
    requires AllSpace(s) && k < |Split(s, '\n')|
    ensures AllSpace(Split(s, '\n')[k])
    decreases |s|
  {
    if '\n' in s {
      var i := IndexOf(s, '\n');
      if k > 0 {
        PieceOfSpaceIsSpace(s[i + 1..], k - 1);
      }
    }
  }

  /** The example of the batch dialog: `16/02 - Carnaval` under "FERIADO". */
  lemma CarnavalExample()
    ensures EntryOf("16/02 - Carnaval", "FERIADO") == Some(Entry("16/02", "FERIADO - CARNAVAL"))
  {
    var s := "16/02 - Carnaval";
    CarnavalMatch();
    assert FirstMatchFrom(s, 0) == Some(0);
    CarnavalLabel();
    CarnavalKey();
  }

  lemma CarnavalKey()
    ensures PadStart("16", 2, '0') + "/" + PadStart("02", 2, '0') == "16/02"
  {
    assert PadStart("16", 2, '0') == "16";
    assert PadStart("02", 2, '0') == "02";
    assert "16" + "/" + "02" == "16/02";
  }

  lemma CarnavalMatch()
    ensures MatchAt("16/02 - Carnaval", 0) == Some(DateMatch("16", "02", Some("Carnaval")))
  {
    CarnavalDigits();
    CarnavalTrailing();
  }

  lemma CarnavalDigits()
    ensures var s := "16/02 - Carnaval";
      DayLength(s, 0) == 2 && s[0..2] == "16" && s[3..5] == "02" && IsDigit(s[3]) && IsDigit(s[4])
  {
  }

  lemma CarnavalTrailing()
    ensures Trailing("16/02 - Carnaval", 5) == Some("Carnaval")
  {
    var s := "16/02 - Carnaval";
    assert s[5..] == " - " + "Carnaval";
    TrailingAfterDash(s, 5, "Carnaval");
  }

  /** After " - ", a text without line terminators that does not open with white space is captured whole. */
  lemma TrailingAfterDash(s: string, r: nat, x: string)
    requires r <= |s| && s[r..] == " - " + x
    requires x == [] || !IsSpace(x[0])
    requires forall i :: 0 <= i < |x| ==> !IsLineTerminator(x[i])
    ensures Trailing(s, r) == Some(x)
  {
    assert r + 3 <= |s| && s[r] == ' ' && s[r + 1] == '-' && s[r + 2] == ' ' by {
      assert s[r] == s[r..][0] && s[r + 1] == s[r..][1] && s[r + 2] == s[r..][2];
    }
    assert s[r + 3..] == x by {
      assert s[r + 3..] == s[r..][3..];
    }
    if r + 3 < |s| {
      assert s[r + 3] == x[0];
    }
    TrailingAfterSeparator(s, r, r + 1, r + 3);
    LineRunPlain(x);
    assert x[..|x|] == x;
  }

  /**
   * The optional group when a separator is there: white space from `r`, one
   * of `-–—:` at `q`, white space again up to `k`, and then `.*` captures the
   * line from `k` up to its first line terminator.
   */
  lemma TrailingAfterSeparator(s: string, r: nat, q: nat, k: nat)
    requires r <= q < k <= |s|
    requires forall i :: r <= i < q ==> IsSpace(s[i])
    requires IsSeparator(s[q])
    requires forall i :: q < i < k ==> IsSpace(s[i])
    requires k < |s| ==> !IsSpace(s[k])
    ensures Trailing(s, r) == Some(s[k..][..LineRun(s[k..])])
  {
    SeparatorIsNotSpace(s[q]);
    SpaceUpTo(s, r, q);
    assert Trailing(s, r) == SeparatorAt(s, q);
    CapturedAt(s, q, k);
  }

  lemma SeparatorIsNotSpace(c: char)
    requires IsSeparator(c)
    ensures !IsSpace(c)
  {
  }

  /** No separator where the white space after the month ends: the optional group is skipped. */
  lemma TrailingSkipped(s: string, r: nat, k: nat)
    requires r <= k <= |s|
    requires forall i :: r <= i < k ==> IsSpace(s[i])
    requires k < |s| ==> !IsSpace(s[k]) && !IsSeparator(s[k])
    ensures Trailing(s, r) == None
  {
    SpaceUpTo(s, r, k);
    assert Trailing(s, r) == SeparatorAt(s, k);
  }

  /** The white space from `r` ends at `k`. */
  lemma SpaceUpTo(s: string, r: nat, k: nat)
    requires r <= k <= |s|
    requires forall i :: r <= i < k ==> IsSpace(s[i])
    requires k < |s| ==> !IsSpace(s[k])
    ensures r + LeadingSpace(s[r..]) == k
  {
    forall i | 0 <= i < k - r ensures IsSpace(s[r..][i]) {
      assert s[r..][i] == s[r + i];
    }
    if k < |s| {
      assert s[r..][k - r] == s[k];
    }
    LeadingSpaceIs(s[r..], k - r);
  }

  /** After the separator at `q`, `\s*(.*)` skips the white space up to `k` and captures the line from there. */
  lemma CapturedAt(s: string, q: nat, k: nat)
    requires q < k <= |s|
    requires forall i :: q < i < k ==> IsSpace(s[i])
    requires k < |s| ==> !IsSpace(s[k])
    ensures Captured(s[q + 1..]) == s[k..][..LineRun(s[k..])]
  {
    SpaceUpTo(s, q + 1, k);
    CapturedFrom(s, q, k);
  }

  /** `\s*(.*)` after the separator at `q`, once the white space it skips is known to end at `k`. */
  lemma CapturedFrom(s: string, q: nat, k: nat)
    requires q < |s| && q + 1 + LeadingSpace(s[q + 1..]) == k
    ensures Captured(s[q + 1..]) == s[k..][..LineRun(s[k..])]
  {
    var t := s[q + 1..];
    var u := t[LeadingSpace(t)..];
    assert u == s[k..] by {
      DropDrop(s, q + 1, LeadingSpace(t));
    }
    assert Captured(t) == u[..LineRun(u)];
  }

  lemma SpacePrefix(t: string, m: nat)
    requires m <= |t| && AllSpace(t[..m])
    ensures forall i :: 0 <= i < m ==> IsSpace(t[i])
  {
    forall i | 0 <= i < m ensures IsSpace(t[i]) {
      assert t[..m][i] == t[i];
    }
  }

  /** The leading white space is the run of white space that ends at the first other character. */
  lemma LeadingSpaceIs(t: string, n: nat)
    requires n <= |t|
    requires forall i :: 0 <= i < n ==> IsSpace(t[i])
    requires n < |t| ==> !IsSpace(t[n])
    ensures LeadingSpace(t) == n
  {
    SpacePrefix(t, LeadingSpace(t));
  }

  lemma CarnavalLabel()
    ensures Label("FERIADO", Some("Carnaval")) == "FERIADO - CARNAVAL"
  {
    assert [] + "Carnaval" + [] == "Carnaval";
    TrimPadded([], "Carnaval", []);
    LabelOfTrimmed("FERIADO", "Carnaval");
    CarnavalUpper();
  }

  /** A trimmed, non-empty trailing text is appended upper-cased after " - ". */
  lemma LabelOfTrimmed(categoria: string, x: string)
    requires x != [] && Trim(x) == x
    ensures Label(categoria, Some(x)) == categoria + " - " + ToUpper(x)
  {
  }

  lemma CarnavalUpper()
    ensures "FERIADO" + " - " + ToUpper("Carnaval") == "FERIADO - CARNAVAL"
  {
    var u := ToUpper("Carnaval");
    assert u[0] == 'C' && u[1] == 'A' && u[2] == 'R' && u[3] == 'N' && u[4] == 'A' && u[5] == 'V' && u[6] == 'A' && u[7] == 'L';
    assert "FERIADO" + " - " + u == "FERIADO - CARNAVAL";
  }

  /** `.*` takes the whole of a text without line terminators. */
  lemma {:induction false} LineRunPlain(u: string)
    requires forall i :: 0 <= i < |u| ==> !IsLineTerminator(u[i])
    ensures LineRun(u) == |u|
    decreases |u|
  {
    if u != [] {
      LineRunPlain(u[1..]);
    }
  }
}
