/**
 * The redraw editor: pasting statement lines, adding a manual entry,
 * toggling a record's exclusion and deleting records by id. Each operation
 * replaces the snapshot's redraw list and nothing else.
 *
 * `crypto.randomUUID`, today's date and `parseFloat` are parameters:
 * `newId(i)` is the id given to the i-th record created by one call,
 * `today` the ISO date the source takes from the clock, and `toNumber`
 * the numeric parse of an amount string.
 */
module Redraws {
  import opened Types
  import opened Calculations

  const ManualDefault: string := "Manual Entry"
  const ImportedDefault: string := "Imported Redraw"

  // ---------------------------------------------------------------------
  // Toggle and delete

  /** `map(r => r.id === id ? { ...r, excluded: !r.excluded } : r)`. */
  function Toggled(rs: seq<RedrawRecord>, id: string): (out: seq<RedrawRecord>)
    ensures |out| == |rs|
    ensures forall i :: 0 <= i < |rs| ==>
      && out[i].(excluded := rs[i].excluded) == rs[i]
      && (out[i].excluded <==> (rs[i].excluded != (rs[i].id == id)))
  {
    seq(|rs|, i requires 0 <= i < |rs| => if rs[i].id == id then rs[i].(excluded := !rs[i].excluded) else rs[i])
  }

  function ToggleExclude(prev: CoachingData, id: string): (next: CoachingData)
    ensures next == prev.(additionalRedraws := Toggled(prev.additionalRedraws, id))
  {
    prev.(additionalRedraws := Toggled(prev.additionalRedraws, id))
  }

  /** `filter(r => r.id !== id)`. */
  function WithoutId(rs: seq<RedrawRecord>, id: string): (out: seq<RedrawRecord>)
    ensures |out| <= |rs|
    ensures forall r :: r in out <==> r in rs && r.id != id
    decreases |rs|
  {
    if |rs| == 0 then []
    else
      var rest := WithoutId(rs[..|rs| - 1], id);
      var last := rs[|rs| - 1];
      assert rs == rs[..|rs| - 1] + [last];
      if last.id == id then rest else rest + [last]
  }

  function DeleteRedraw(prev: CoachingData, id: string): (next: CoachingData)
    ensures next == prev.(additionalRedraws := WithoutId(prev.additionalRedraws, id))
  {
    prev.(additionalRedraws := WithoutId(prev.additionalRedraws, id))
  }

  // ---------------------------------------------------------------------
  // Manual entry

  /** The form state of the manual-entry row. */
  datatype ManualEntry = ManualEntry(date: string, amount: string, description: string)

  datatype Edit = Edit(data: CoachingData, entry: ManualEntry)

  const BlankEntry: ManualEntry := ManualEntry("", "", "")

  /** An empty string is falsy: `s || fallback`. */
  function OrDefault(s: string, fallback: string): (r: string)
    ensures |s| > 0 ==> r == s
    ensures |s| == 0 ==> r == fallback
  {
    if |s| > 0 then s else fallback
  }

  function AddManualRedraw(prev: CoachingData, entry: ManualEntry, newId: nat -> string,
                           today: string, toNumber: string -> real): (e: Edit)
    ensures entry.amount == "" ==> e == Edit(prev, entry)
    ensures entry.amount != "" ==>
      && e.entry == BlankEntry
      && e.data.(additionalRedraws := prev.additionalRedraws) == prev
      && |e.data.additionalRedraws| == |prev.additionalRedraws| + 1
      && e.data.additionalRedraws[..|prev.additionalRedraws|] == prev.additionalRedraws
      && var added := e.data.additionalRedraws[|prev.additionalRedraws|];
         && added.id == newId(0) && !added.excluded && added.month.None?
         && added.amount == toNumber(entry.amount)
         && added.date == (if entry.date == "" then today else entry.date)
         && added.description == (if entry.description == "" then ManualDefault else entry.description)
  {
    if entry.amount == "" then Edit(prev, entry)
    else
      var added := RedrawRecord(newId(0), OrDefault(entry.date, today), toNumber(entry.amount),
                                OrDefault(entry.description, ManualDefault), false, None);
      Edit(prev.(additionalRedraws := prev.additionalRedraws + [added]), BlankEntry)
  }

  // ---------------------------------------------------------------------
  // Paste

  /** The characters JavaScript's `\s` and `trim` treat as white space. */
  predicate IsJsSpace(c: char)
  {
    var n := c as int;
    (9 <= n <= 13) || n == 32 || n == 0xA0 || n == 0x1680 || (0x2000 <= n <= 0x200A)
    || n == 0x2028 || n == 0x2029 || n == 0x202F || n == 0x205F || n == 0x3000 || n == 0xFEFF
  }

  /** No character of `t` is white space. */
  predicate NoSpace(t: string)
  {
    forall j :: 0 <= j < |t| ==> !IsJsSpace(t[j])
  }

  /** No character of `t` is a tab. */
  predicate NoTab(t: string)
  {
    forall i :: 0 <= i < |t| ==> t[i] != '\t'
  }

  /** No two white-space characters of `t` are adjacent. */
  predicate SingleSpaced(t: string)
  {
    forall i, j :: 0 <= i < |t| && j == i + 1 < |t| ==> !(IsJsSpace(t[i]) && IsJsSpace(t[j]))
  }

  /** `l.trim()` is the empty string, so the line is dropped. */
  predicate IsBlank(l: string)
  {
    forall i :: 0 <= i < |l| ==> IsJsSpace(l[i])
  }

  /** `s.split('\n')`: always at least one piece, none containing a newline. */
  function SplitLines(s: string): (lines: seq<string>)
    ensures |lines| >= 1
    ensures forall i, j :: 0 <= i < |lines| && 0 <= j < |lines[i]| ==> lines[i][j] != '\n'
    decreases |s|
  {
    if |s| == 0 then [""]
    else
      var rest := SplitLines(s[1..]);
      if s[0] == '\n' then [""] + rest
      else [[s[0]] + rest[0]] + rest[1..]
  }

  /** `lines.join(sep)`. */
  function Join(parts: seq<string>, sep: string): string
    decreases |parts|
  {
    if |parts| == 0 then ""
    else if |parts| == 1 then parts[0]
    else parts[0] + sep + Join(parts[1..], sep)
  }

  /** Length of the match of /\t|\s{2,}/ at the start of `s`: a tab alone, else a run of two or more spaces. */
  function SeparatorLength(s: string): (n: nat)
    ensures n <= |s|
    ensures n == 0 || n == 1 || n >= 2
    ensures n == 1 ==> s[0] == '\t'
    ensures n >= 2 ==> forall i :: 0 <= i < n ==> IsJsSpace(s[i])
    ensures n == 0 <==> (|s| == 0 || (s[0] != '\t' && (|s| < 2 || !IsJsSpace(s[0]) || !IsJsSpace(s[1]))))
    ensures |s| > 0 && s[0] == '\t' ==> n == 1
    ensures n >= 2 ==> n == SpaceRun(s)
  {
    if |s| == 0 then 0
    else if s[0] == '\t' then 1
    else if |s| >= 2 && IsJsSpace(s[0]) && IsJsSpace(s[1]) then SpaceRun(s)
    else 0
  }

  /** Length of the leading run of white space. */
  function SpaceRun(s: string): (n: nat)
    ensures n <= |s|
    ensures forall i :: 0 <= i < n ==> IsJsSpace(s[i])
    ensures n < |s| ==> !IsJsSpace(s[n])
    decreases |s|
  {
    if |s| == 0 || !IsJsSpace(s[0]) then 0 else 1 + SpaceRun(s[1..])
  }

  /** `line.split(/\t|\s{2,}/)`. */
  function SplitFields(s: string): (parts: seq<string>)
    ensures |parts| >= 1
    decreases |s|
  {
    if |s| == 0 then [""]
    else
      var n := SeparatorLength(s);
      if n > 0 then [""] + SplitFields(s[n..])
      else
        var rest := SplitFields(s[1..]);
        [[s[0]] + rest[0]] + rest[1..]
  }

  /** A character the amount cleaner keeps: a digit or a dot. */
  predicate IsAmountChar(c: char)
  {
    '0' <= c <= '9' || c == '.'
  }

  /** `replace(/[^0-9.]/g, '')`: keeps the digits and dots, in order. */
  function KeepAmountChars(s: string): (out: string)
    ensures |out| <= |s|
    ensures forall i :: 0 <= i < |out| ==> IsAmountChar(out[i])
    decreases |s|
  {
    if |s| == 0 then ""
    else
      var rest := KeepAmountChars(s[1..]);
      if IsAmountChar(s[0]) then [s[0]] + rest else rest
  }

  /** The amount text of a pasted line: the cleaned second field, or "0". */
  function AmountText(parts: seq<string>): (t: string)
    ensures |t| > 0
  {
    if |parts| > 1 then OrDefault(KeepAmountChars(parts[1]), "0") else "0"
  }

  /** The record built from one non-blank pasted line. */
  function ParseLine(line: string, id: string, today: string, toNumber: string -> real): (r: RedrawRecord)
    ensures r.id == id && !r.excluded && r.month.None?
    ensures |r.date| > 0 || today == ""
    ensures |r.description| > 0
  {
    var parts := SplitFields(line);
    RedrawRecord(id, OrDefault(parts[0], today), toNumber(AmountText(parts)),
                 OrDefault(if |parts| > 2 then parts[2] else "", ImportedDefault), false, None)
  }

  /** `lines.filter(l => l.trim())`. */
  function NonBlank(lines: seq<string>): (kept: seq<string>)
    ensures |kept| <= |lines|
    ensures forall l :: l in kept <==> l in lines && !IsBlank(l)
    decreases |lines|
  {
    if |lines| == 0 then []
    else
      var rest := NonBlank(lines[..|lines| - 1]);
      var last := lines[|lines| - 1];
      assert lines == lines[..|lines| - 1] + [last];
      if IsBlank(last) then rest else rest + [last]
  }

  function Parsed(kept: seq<string>, newId: nat -> string, today: string, toNumber: string -> real): (rs: seq<RedrawRecord>)
    ensures |rs| == |kept|
  {
    seq(|kept|, i requires 0 <= i < |kept| => ParseLine(kept[i], newId(i), today, toNumber))
  }

  datatype PasteResult = PasteResult(data: CoachingData, pasteBuffer: string)

  function HandlePaste(prev: CoachingData, pasteBuffer: string, newId: nat -> string,
                       today: string, toNumber: string -> real): (p: PasteResult)
    ensures p.pasteBuffer == ""
    ensures p.data.(additionalRedraws := prev.additionalRedraws) == prev
    ensures var kept := NonBlank(SplitLines(pasteBuffer));
      var n := |prev.additionalRedraws|;
      && |p.data.additionalRedraws| == n + |kept|
      && p.data.additionalRedraws[..n] == prev.additionalRedraws
      && forall i :: 0 <= i < |kept| ==>
           p.data.additionalRedraws[n + i] == ParseLine(kept[i], newId(i), today, toNumber)
  {
    var kept := NonBlank(SplitLines(pasteBuffer));
    PasteResult(prev.(additionalRedraws := prev.additionalRedraws + Parsed(kept, newId, today, toNumber)), "")
  }

  // ---------------------------------------------------------------------
  // Toggle and delete: properties

  /** Toggling the same id twice gives the list back. */
  lemma ToggleTwice(rs: seq<RedrawRecord>, id: string)
    ensures Toggled(Toggled(rs, id), id) == rs
  {
  }

  /** Toggling an id no record has changes nothing. */
  lemma ToggleAbsent(rs: seq<RedrawRecord>, id: string)
    requires forall i :: 0 <= i < |rs| ==> rs[i].id != id
    ensures Toggled(rs, id) == rs
  {
  }

  /** Toggling keeps every id in its place, so deleting afterwards removes the same positions. */
  lemma ToggleKeepsIds(rs: seq<RedrawRecord>, id: string)
    ensures forall i :: 0 <= i < |rs| ==> Toggled(rs, id)[i].id == rs[i].id
  {
  }

  /** Deleting distributes over concatenation, so the kept records stay in order. */
  lemma {:induction false} WithoutIdAppend(a: seq<RedrawRecord>, b: seq<RedrawRecord>, id: string)
    ensures WithoutId(a + b, id) == WithoutId(a, id) + WithoutId(b, id)
    decreases |b|
  {
    if |b| == 0 {
      assert a + b == a;
    } else {
      var init := b[..|b| - 1];
      assert (a + b)[..|a + b| - 1] == a + init;
      assert (a + b)[|a + b| - 1] == b[|b| - 1];
      WithoutIdAppend(a, init, id);
    }
  }

  /** A single record is kept exactly when its id differs. */
  lemma WithoutIdSingle(r: RedrawRecord, id: string)
    ensures WithoutId([r], id) == if r.id == id then [] else [r]
  {
    assert [r][..0] == [];
  }

  /** A list with no record of that id is unchanged by the delete. */
  lemma {:induction false} WithoutIdAbsent(rs: seq<RedrawRecord>, id: string)
    requires forall i :: 0 <= i < |rs| ==> rs[i].id != id
    ensures WithoutId(rs, id) == rs
    decreases |rs|
  {
    if |rs| > 0 {
      WithoutIdAbsent(rs[..|rs| - 1], id);
      assert rs == rs[..|rs| - 1] + [rs[|rs| - 1]];
    }
  }

  /** Deleting twice is deleting once. */
  lemma WithoutIdIdempotent(rs: seq<RedrawRecord>, id: string)
    ensures WithoutId(WithoutId(rs, id), id) == WithoutId(rs, id)
  {
    var out := WithoutId(rs, id);
    forall i | 0 <= i < |out| ensures out[i].id != id {
      assert out[i] in out;
    }
    WithoutIdAbsent(out, id);
  }

  // ---------------------------------------------------------------------
  // Manual entry: properties

  /** A manual record is active, so the redraw total grows by its amount. */
  lemma ManualAddTotal(prev: CoachingData, entry: ManualEntry, newId: nat -> string, today: string, toNumber: string -> real)
    requires entry.amount != ""
    ensures ActiveRedrawTotal(AddManualRedraw(prev, entry, newId, today, toNumber).data.additionalRedraws)
         == ActiveRedrawTotal(prev.additionalRedraws) + toNumber(entry.amount)
  {
    var e := AddManualRedraw(prev, entry, newId, today, toNumber);
    var rs := prev.additionalRedraws;
    assert e.data.additionalRedraws == rs + [e.data.additionalRedraws[|rs|]];
    ActiveRedrawTotalAppend(rs, e.data.additionalRedraws[|rs|]);
  }

  /** Deleting the freshly added record by its new id gives the previous snapshot back. */
  lemma ManualAddThenDelete(prev: CoachingData, entry: ManualEntry, newId: nat -> string, today: string, toNumber: string -> real)
    requires forall i :: 0 <= i < |prev.additionalRedraws| ==> prev.additionalRedraws[i].id != newId(0)
    ensures DeleteRedraw(AddManualRedraw(prev, entry, newId, today, toNumber).data, newId(0)) == prev
  {
    var e := AddManualRedraw(prev, entry, newId, today, toNumber);
    var rs := prev.additionalRedraws;
    WithoutIdAbsent(rs, newId(0));
    if entry.amount != "" {
      var added := e.data.additionalRedraws[|rs|];
      assert e.data.additionalRedraws == rs + [added];
      WithoutIdAppend(rs, [added], newId(0));
      WithoutIdSingle(added, newId(0));
      assert rs + [] == rs;
    }
  }

  // ---------------------------------------------------------------------
  // Paste: properties

  /** Splitting the joined lines gives the lines back. */
  lemma {:induction false} SplitJoinLines(lines: seq<string>)
    requires |lines| >= 1
    requires forall i, j :: 0 <= i < |lines| && 0 <= j < |lines[i]| ==> lines[i][j] != '\n'
    ensures SplitLines(Join(lines, "\n")) == lines
    decreases |Join(lines, "\n")|, |lines|
  {
    if |lines| == 1 {
      SplitLinesNoBreak(lines[0]);
    } else {
      var s := Join(lines, "\n");
      SplitLinesPrefix(lines[0], Join(lines[1..], "\n"));
      SplitJoinLines(lines[1..]);
      assert lines == [lines[0]] + lines[1..];
    }
  }

  lemma {:induction false} SplitLinesNoBreak(l: string)
    requires forall j :: 0 <= j < |l| ==> l[j] != '\n'
    ensures SplitLines(l) == [l]
    decreases |l|
  {
    if |l| > 0 {
      SplitLinesNoBreak(l[1..]);
      assert [l[0]] + l[1..] == l;
    }
  }

  lemma {:induction false} SplitLinesPrefix(l: string, rest: string)
    requires forall j :: 0 <= j < |l| ==> l[j] != '\n'
    ensures SplitLines(l + "\n" + rest) == [l] + SplitLines(rest)
    decreases |l|
  {
    if |l| == 0 {
      assert l + "\n" + rest == ['\n'] + rest;
      assert (['\n'] + rest)[1..] == rest;
    } else {
      var s := l + "\n" + rest;
      assert s[0] == l[0];
      assert s[1..] == l[1..] + "\n" + rest;
      SplitLinesPrefix(l[1..], rest);
      assert [l[0]] + l[1..] == l;
    }
  }

  /** A field without white space splits into itself. */
  lemma {:induction false} SplitFieldsToken(t: string)
    requires NoSpace(t)
    ensures SplitFields(t) == [t]
    decreases |t|
  {
    if |t| > 0 {
      SplitFieldsToken(t[1..]);
      assert [t[0]] + t[1..] == t;
    }
  }

  /** A field without white space followed by a tab splits off as the first part. */
  lemma {:induction false} SplitFieldsTabPrefix(t: string, rest: string)
    requires NoSpace(t)
    ensures SplitFields(t + "\t" + rest) == [t] + SplitFields(rest)
    decreases |t|
  {
    var s := t + "\t" + rest;
    if |t| == 0 {
      assert s == ['\t'] + rest;
      assert s[1..] == rest;
    } else {
      assert s[0] == t[0];
      assert s[1..] == t[1..] + "\t" + rest;
      SplitFieldsTabPrefix(t[1..], rest);
      assert [t[0]] + t[1..] == t;
    }
  }

  /** Tab-separated fields without white space split back into those fields. */
  lemma {:induction false} SplitJoinFields(fields: seq<string>)
    requires |fields| >= 1
    requires forall i :: 0 <= i < |fields| ==> NoSpace(fields[i])
    ensures SplitFields(Join(fields, "\t")) == fields
    decreases |fields|
  {
    if |fields| == 1 {
      SplitFieldsToken(fields[0]);
    } else {
      SplitFieldsTabPrefix(fields[0], Join(fields[1..], "\t"));
      SplitJoinFields(fields[1..]);
      assert fields == [fields[0]] + fields[1..];
    }
  }

  lemma JoinThree(a: string, b: string, c: string)
    ensures Join([a, b, c], "\t") == a + "\t" + b + "\t" + c
  {
    assert [a, b, c][1..] == [b, c];
    assert [b, c][1..] == [c];
    assert Join([b, c], "\t") == b + "\t" + c;
    assert a + "\t" + (b + "\t" + c) == a + "\t" + b + "\t" + c;
  }

  /** A line whose three fields are non-empty takes them as date, amount text and description. */
  lemma ParseThreeFields(line: string, date: string, amount: string, description: string,
                         id: string, today: string, toNumber: string -> real)
    requires SplitFields(line) == [date, amount, description]
    requires |date| > 0 && |description| > 0
    ensures ParseLine(line, id, today, toNumber)
         == RedrawRecord(id, date, toNumber(OrDefault(KeepAmountChars(amount), "0")), description, false, None)
  {
  }

  /** A tab-separated "date, amount, description" line parses into those three values. */
  lemma ParseTabLine(date: string, amount: string, description: string, id: string, today: string, toNumber: string -> real)
    requires |date| > 0 && |description| > 0
    requires NoSpace(date)
    requires NoSpace(amount)
    requires NoSpace(description)
    ensures ParseLine(date + "\t" + amount + "\t" + description, id, today, toNumber)
         == RedrawRecord(id, date, toNumber(OrDefault(KeepAmountChars(amount), "0")), description, false, None)
  {
    JoinThree(date, amount, description);
    SplitJoinFields([date, amount, description]);
    ParseThreeFields(date + "\t" + amount + "\t" + description, date, amount, description, id, today, toNumber);
  }

  /** A line with no tab and no two white-space characters in a row is a single field. */
  lemma {:induction false} NoSeparatorOneField(s: string)
    requires NoTab(s)
    requires SingleSpaced(s)
    ensures SplitFields(s) == [s]
    decreases |s|
  {
    if |s| > 0 {
      assert SeparatorLength(s) == 0;
      NoSeparatorOneField(s[1..]);
      assert [s[0]] + s[1..] == s;
    }
  }

  /** A line that is one field is the date; the amount parses "0" and the description is the import default. */
  lemma SingleFieldLineDefaults(line: string, id: string, today: string, toNumber: string -> real)
    requires |line| > 0
    requires NoTab(line)
    requires SingleSpaced(line)
    ensures ParseLine(line, id, today, toNumber) == RedrawRecord(id, line, toNumber("0"), ImportedDefault, false, None)
  {
    NoSeparatorOneField(line);
  }

  /** Two tabs in a row leave an empty field between them, which then takes its default. */
  lemma DoubleTabEmptyField(id: string, today: string, toNumber: string -> real)
    ensures SplitFields("d\t\tx") == ["d", "", "x"]
    ensures ParseLine("d\t\tx", id, today, toNumber) == RedrawRecord(id, "d", toNumber("0"), "x", false, None)
  {
    SplitFieldsTabPrefix("d", "\tx");
    SplitFieldsTabPrefix("", "x");
    SplitFieldsToken("x");
    assert "d" + "\t" + "\tx" == "d\t\tx";
    assert "" + "\t" + "x" == "\tx";
  }

  /** A field of a space-aligned paste: non-empty, no tab, no two white-space characters in a row, none at either end. */
  predicate SpacedField(t: string)
  {
    && |t| > 0
    && !IsJsSpace(t[0]) && !IsJsSpace(t[|t| - 1])
    && NoTab(t)
    && SingleSpaced(t)
  }

  /** A gap of two or more white-space characters that does not start with a tab. */
  predicate WideGap(sep: string)
  {
    |sep| >= 2 && sep[0] != '\t' && forall i :: 0 <= i < |sep| ==> IsJsSpace(sep[i])
  }

  /** The leading white-space run of a gap followed by a non-space is the whole gap. */
  lemma {:induction false} SpaceRunGap(sep: string, rest: string)
    requires forall i :: 0 <= i < |sep| ==> IsJsSpace(sep[i])
    requires |rest| == 0 || !IsJsSpace(rest[0])
    ensures SpaceRun(sep + rest) == |sep|
    decreases |sep|
  {
    if |sep| == 0 {
      assert sep + rest == rest;
    } else {
      assert (sep + rest)[1..] == sep[1..] + rest;
      SpaceRunGap(sep[1..], rest);
    }
  }

  /**
   * The `\s{2,}` alternative: a field with single spaces only, then a wide
   * gap, splits off as the first part.
   */
  lemma {:induction false} SplitFieldsGapPrefix(a: string, sep: string, rest: string)
    requires NoTab(a)
    requires SingleSpaced(a)
    requires |a| == 0 || !IsJsSpace(a[|a| - 1])
    requires WideGap(sep)
    requires |rest| == 0 || !IsJsSpace(rest[0])
    ensures SplitFields(a + sep + rest) == [a] + SplitFields(rest)
    decreases |a|
  {
    var s := a + sep + rest;
    if |a| == 0 {
      assert s == sep + rest;
      SpaceRunGap(sep, rest);
      assert SeparatorLength(s) == |sep|;
      assert s[|sep|..] == rest;
    } else {
      assert s[0] == a[0];
      assert |a| == 1 ==> s[1] == sep[0];
      assert |a| >= 2 ==> s[1] == a[1];
      assert SeparatorLength(s) == 0;
      assert s[1..] == a[1..] + sep + rest;
      SplitFieldsGapPrefix(a[1..], sep, rest);
      assert [a[0]] + a[1..] == a;
    }
  }

  /** The copied-table layout: three fields separated by wide gaps of spaces. */
  lemma SplitSpacedLine(date: string, amount: string, description: string, gap1: string, gap2: string)
    requires SpacedField(date) && SpacedField(amount) && SpacedField(description)
    requires WideGap(gap1) && WideGap(gap2)
    ensures SplitFields(date + gap1 + amount + gap2 + description) == [date, amount, description]
  {
    var tail := amount + gap2 + description;
    SplitSpacedPair(amount, description, gap2);
    SplitFieldsGapPrefix(date, gap1, tail);
    assert date + gap1 + amount + gap2 + description == date + gap1 + tail;
  }

  /** Two single-spaced fields separated by a wide gap. */
  lemma SplitSpacedPair(amount: string, description: string, gap: string)
    requires SpacedField(amount) && SpacedField(description) && WideGap(gap)
    ensures SplitFields(amount + gap + description) == [amount, description]
    ensures !IsJsSpace((amount + gap + description)[0])
  {
    assert (amount + gap + description)[0] == amount[0];
    SplitFieldsGapPrefix(amount, gap, description);
    NoSeparatorOneField(description);
  }

  /** A space-aligned "date, amount, description" line parses into those three values. */
  lemma ParseSpacedLine(date: string, amount: string, description: string, gap1: string, gap2: string,
                        id: string, today: string, toNumber: string -> real)
    requires SpacedField(date) && SpacedField(amount) && SpacedField(description)
    requires WideGap(gap1) && WideGap(gap2)
    ensures ParseLine(date + gap1 + amount + gap2 + description, id, today, toNumber)
         == RedrawRecord(id, date, toNumber(OrDefault(KeepAmountChars(amount), "0")), description, false, None)
  {
    SplitSpacedLine(date, amount, description, gap1, gap2);
  }

  /** Removing characters distributes over concatenation, so the kept ones stay in order. */
  lemma {:induction false} KeepAmountCharsAppend(a: string, b: string)
    ensures KeepAmountChars(a + b) == KeepAmountChars(a) + KeepAmountChars(b)
    decreases |a|
  {
    if |a| == 0 {
      assert a + b == b;
    } else {
      assert (a + b)[0] == a[0];
      assert (a + b)[1..] == a[1..] + b;
      KeepAmountCharsAppend(a[1..], b);
    }
  }

  /** A string of digits and dots is kept unchanged. */
  lemma {:induction false} KeepAmountCharsOfAmount(s: string)
    requires forall i :: 0 <= i < |s| ==> IsAmountChar(s[i])
    ensures KeepAmountChars(s) == s
    decreases |s|
  {
    if |s| > 0 {
      KeepAmountCharsOfAmount(s[1..]);
      assert [s[0]] + s[1..] == s;
    }
  }

  /** A string with no digit and no dot cleans to the empty string. */
  lemma {:induction false} KeepAmountCharsOfOther(s: string)
    requires forall i :: 0 <= i < |s| ==> !IsAmountChar(s[i])
    ensures KeepAmountChars(s) == ""
    decreases |s|
  {
    if |s| > 0 {
      KeepAmountCharsOfOther(s[1..]);
    }
  }

  /** One character is kept exactly when it is a digit or a dot. */
  lemma KeepAmountCharsSingle(c: char)
    ensures KeepAmountChars([c]) == if IsAmountChar(c) then [c] else []
  {
    assert [c][1..] == [];
  }

  /** A currency sign and a thousands separator are dropped and the digits joined. */
  lemma CleanCurrencyAmount(sign: string, high: string, comma: string, low: string)
    requires forall i :: 0 <= i < |sign| ==> !IsAmountChar(sign[i])
    requires forall i :: 0 <= i < |comma| ==> !IsAmountChar(comma[i])
    requires forall i :: 0 <= i < |high| ==> IsAmountChar(high[i])
    requires forall i :: 0 <= i < |low| ==> IsAmountChar(low[i])
    ensures KeepAmountChars(sign + high + comma + low) == high + low
  {
    var x := sign + high;
    var y := x + comma;
    KeepAmountCharsOfOther(sign);
    KeepAmountCharsOfAmount(high);
    KeepAmountCharsAppend(sign, high);
    assert KeepAmountChars(x) == high;
    KeepAmountCharsOfOther(comma);
    KeepAmountCharsAppend(x, comma);
    assert KeepAmountChars(y) == high;
    KeepAmountCharsOfAmount(low);
    KeepAmountCharsAppend(y, low);
  }

  /** "$1,250.00" cleans to "1250.00". */
  lemma CleanedAmountExample()
    ensures KeepAmountChars("$1,250.00") == "1250.00"
  {
    CleanCurrencyAmount("$", "1", ",", "250.00");
    assert "$" + "1" + "," + "250.00" == "$1,250.00";
    assert "1" + "250.00" == "1250.00";
  }

  /** A row copied from a table with a currency amount and a two-word description. */
  lemma SpacedLineExample(id: string, today: string, toNumber: string -> real)
    ensures ParseLine("2024-03-01   $1,250.00   Car Repair", id, today, toNumber)
         == RedrawRecord(id, "2024-03-01", toNumber("1250.00"), "Car Repair", false, None)
  {
    ExampleFields();
    ExampleGap();
    assert "2024-03-01" + "   " + "$1,250.00" + "   " + "Car Repair" == "2024-03-01   $1,250.00   Car Repair";
    ParseSpacedLine("2024-03-01", "$1,250.00", "Car Repair", "   ", "   ", id, today, toNumber);
    CleanedAmountExample();
  }

  /** The three fields of the example row are single-spaced fields. */
  lemma ExampleFields()
    ensures SpacedField("2024-03-01") && SpacedField("$1,250.00") && SpacedField("Car Repair")
  {
    ExampleDate();
    ExampleAmount();
    ExampleDescription();
  }

  lemma ExampleDate()
    ensures SpacedField("2024-03-01")
  {
  }

  lemma ExampleAmount()
    ensures SpacedField("$1,250.00")
  {
  }

  lemma ExampleDescription()
    ensures SpacedField("Car Repair")
  {
  }

  /** Three spaces are a wide gap. */
  lemma ExampleGap()
    ensures WideGap("   ")
  {
  }

  /** Dropping blank lines distributes over concatenation, so the kept lines stay in order. */
  lemma {:induction false} NonBlankAppend(a: seq<string>, b: seq<string>)
    ensures NonBlank(a + b) == NonBlank(a) + NonBlank(b)
    decreases |b|
  {
    if |b| == 0 {
      assert a + b == a;
    } else {
      var init := b[..|b| - 1];
      assert (a + b)[..|a + b| - 1] == a + init;
      assert (a + b)[|a + b| - 1] == b[|b| - 1];
      NonBlankAppend(a, init);
    }
  }

  /** A single line is kept exactly when it is not blank. */
  lemma NonBlankSingle(l: string)
    ensures NonBlank([l]) == if IsBlank(l) then [] else [l]
  {
    assert [l][..0] == [];
  }

  /** A paste of nothing but blank lines adds no record. */
  lemma {:induction false} BlankPasteAddsNothing(prev: CoachingData, pasteBuffer: string, newId: nat -> string,
                                                 today: string, toNumber: string -> real)
    requires forall i :: 0 <= i < |pasteBuffer| ==> IsJsSpace(pasteBuffer[i])
    ensures HandlePaste(prev, pasteBuffer, newId, today, toNumber).data == prev
  {
    var lines := SplitLines(pasteBuffer);
    SplitLinesBlank(pasteBuffer);
    var kept := NonBlank(lines);
    NonBlankOfBlank(lines);
    assert prev.additionalRedraws + Parsed(kept, newId, today, toNumber) == prev.additionalRedraws;
  }

  lemma {:induction false} NonBlankOfBlank(lines: seq<string>)
    requires forall l :: l in lines ==> IsBlank(l)
    ensures NonBlank(lines) == []
    decreases |lines|
  {
    if |lines| > 0 {
      assert lines[|lines| - 1] in lines;
      NonBlankOfBlank(lines[..|lines| - 1]);
    }
  }

  /** Every line split from white space is blank. */
  lemma {:induction false} SplitLinesBlank(s: string)
    requires forall i :: 0 <= i < |s| ==> IsJsSpace(s[i])
    ensures forall l :: l in SplitLines(s) ==> IsBlank(l)
    decreases |s|
  {
    if |s| > 0 {
      SplitLinesBlank(s[1..]);
      var rest := SplitLines(s[1..]);
      assert rest[0] in rest;
      if s[0] != '\n' {
        var lines := [[s[0]] + rest[0]] + rest[1..];
        forall l | l in lines ensures IsBlank(l) {
          if l != lines[0] {
            assert l in rest;
          }
        }
      }
    }
  }

  /** Pasted records are active, so the redraw total grows by exactly their amounts. */
  lemma {:induction false} PasteTotal(rs: seq<RedrawRecord>, added: seq<RedrawRecord>)
    requires forall i :: 0 <= i < |added| ==> !added[i].excluded
    ensures ActiveRedrawTotal(rs + added) == ActiveRedrawTotal(rs) + SumAmounts(added)
    decreases |added|
  {
    if |added| == 0 {
      assert rs + added == rs;
    } else {
      var init := added[..|added| - 1];
      var last := added[|added| - 1];
      assert rs + added == (rs + init) + [last];
      PasteTotal(rs, init);
      ActiveRedrawTotalAppend(rs + init, last);
    }
  }
}
