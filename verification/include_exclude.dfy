/**
 Comma-separated lists whose entries are excluded when they start with a dash (db/applications.go).
 */
module IncludeExclude {
  import opened Base
  import opened Text

  function TrimSpace(s: string): (r: string)
    ensures |r| <= |s|
    decreases |s|
  {
    if s == "" then ""
    else if IsSpace(s[0]) then TrimSpace(s[1..])
    else if IsSpace(s[|s| - 1]) then TrimSpace(s[..|s| - 1])
    else s
  }

  predicate Trimmed(s: string) {
    s != "" && !IsSpace(s[0]) && !IsSpace(s[|s| - 1])
  }

  /** Trimming removes exactly the white space at both ends. */
  lemma TrimSpaceCorrect(s: string) returns (before: string, after: string)
    ensures s == before + TrimSpace(s) + after && AllSpace(before) && AllSpace(after)
    ensures TrimSpace(s) == "" || Trimmed(TrimSpace(s))
  {
    TrimSpaceTrims(s);
    before, after := TrimmedOff(s);
  }

  lemma {:induction false} TrimSpaceTrims(s: string)
    ensures TrimSpace(s) == "" || Trimmed(TrimSpace(s))
    decreases |s|
  {
    if s == "" {
    } else if IsSpace(s[0]) {
      TrimSpaceTrims(s[1..]);
    } else if IsSpace(s[|s| - 1]) {
      TrimSpaceTrims(s[..|s| - 1]);
    }
  }

  lemma {:induction false} TrimmedOff(s: string) returns (before: string, after: string)
    ensures s == before + TrimSpace(s) + after && AllSpace(before) && AllSpace(after)
    decreases |s|
  {
    before, after := "", "";
    if s == "" {
    } else if IsSpace(s[0]) {
      before, after := TrimmedOff(s[1..]);
      Surrounded([s[0]], before, TrimSpace(s[1..]), after, "");
      assert s == [s[0]] + s[1..] + "";
      before := [s[0]] + before;
    } else if IsSpace(s[|s| - 1]) {
      before, after := TrimmedOff(s[..|s| - 1]);
      Surrounded("", before, TrimSpace(s[..|s| - 1]), after, [s[|s| - 1]]);
      assert s == "" + s[..|s| - 1] + [s[|s| - 1]];
      after := after + [s[|s| - 1]];
    }
  }

  lemma Surrounded(a: string, before: string, core: string, after: string, b: string)
    ensures a + (before + core + after) + b == (a + before) + core + (after + b)
    ensures "" + before == before && after + "" == after
  {
  }

  lemma {:induction false} TrimPadded(before: string, core: string, after: string)
    requires AllSpace(before) && AllSpace(after) && Trimmed(core)
    ensures TrimSpace(before + core + after) == core
    decreases |before| + |after|
  {
    var s := before + core + after;
    if before != "" {
      assert s[1..] == before[1..] + core + after;
      TrimPadded(before[1..], core, after);
    } else if after != "" {
      assert s[..|s| - 1] == before + core + after[..|after| - 1];
      TrimPadded(before, core, after[..|after| - 1]);
    } else {
      assert s == core;
    }
  }

  // ---------------------------------------------------------------- entries

  datatype Entry = Include(text: string) | Exclude(text: string)

  /** What one piece between commas contributes. */
  function ReadPiece(piece: string): Option<Entry> {
    var part := TrimSpace(piece);
    if part == "" then None
    else if part[0] == '-' then
      var val := TrimSpace(part[1..]);
      if val == "" then None else Some(Exclude(val))
    else Some(Include(part))
  }

  function Included(pieces: seq<string>): seq<string> {
    if pieces == [] then []
    else
      var last := ReadPiece(pieces[|pieces| - 1]);
      Included(pieces[..|pieces| - 1]) + if last.Some? && last.value.Include? then [last.value.text] else []
  }

  function Excluded(pieces: seq<string>): seq<string> {
    if pieces == [] then []
    else
      var last := ReadPiece(pieces[|pieces| - 1]);
      Excluded(pieces[..|pieces| - 1]) + if last.Some? && last.value.Exclude? then [last.value.text] else []
  }

  method ParseIncludeExcludeList(s: string) returns (included: seq<string>, excluded: seq<string>)
    ensures included == Included(Split(s, ',')) && excluded == Excluded(Split(s, ','))
  {
    included, excluded := [], [];
    var pieces := Split(s, ',');
    var i := 0;
    while i < |pieces|
      invariant 0 <= i <= |pieces|
      invariant included == Included(pieces[..i]) && excluded == Excluded(pieces[..i])
    {
      assert pieces[..i + 1][..i] == pieces[..i];
      var part := TrimSpace(pieces[i]);
      if part != "" {
        if part[0] == '-' {
          var val := TrimSpace(part[1..]);
          if val != "" { excluded := excluded + [val]; }
        } else {
          included := included + [part];
        }
      }
      i := i + 1;
    }
    assert pieces[..|pieces|] == pieces;
  }

  // ---------------------------------------------------------------- printing

  /** An entry that can be written down: trimmed, without commas, and not mistaken for an exclusion. */
  predicate Writable(e: Entry) {
    Trimmed(e.text) && ',' !in e.text && (e.Include? ==> e.text[0] != '-')
  }

  function Print(e: Entry): string {
    if e.Include? then e.text else "-" + e.text
  }

  function Printed(entries: seq<Entry>): seq<string> {
    seq(|entries|, k requires 0 <= k < |entries| => Print(entries[k]))
  }

  function Join(pieces: seq<string>): string {
    if pieces == [] then "" else if |pieces| == 1 then pieces[0] else pieces[0] + [','] + Join(pieces[1..])
  }

  ghost predicate NoCommas(pieces: seq<string>) {
    forall k :: 0 <= k < |pieces| ==> ',' !in pieces[k]
  }

  lemma {:induction false} SplitUndoesJoin(pieces: seq<string>)
    requires pieces != [] && NoCommas(pieces)
    ensures Split(Join(pieces), ',') == pieces
  {
    if |pieces| == 1 {
      SplitPlain(pieces[0], ',');
    } else {
      SplitUndoesJoin(pieces[1..]);
      SplitFirst(pieces[0], ',', Join(pieces[1..]));
    }
  }

  /** Every writable entry is read back, with any white space around it. */
  lemma PrintedIsRead(e: Entry, before: string, after: string)
    requires Writable(e) && AllSpace(before) && AllSpace(after)
    ensures ReadPiece(before + Print(e) + after) == Some(e)
  {
    var printed := Print(e);
    assert Trimmed(printed);
    TrimPadded(before, printed, after);
    if e.Exclude? {
      assert printed[1..] == e.text;
      TrimPadded("", e.text, "");
      assert "" + e.text + "" == e.text;
    }
  }

  function Texts(entries: seq<Entry>, excluded: bool): seq<string> {
    if entries == [] then []
    else
      var last := entries[|entries| - 1];
      Texts(entries[..|entries| - 1], excluded) + if last.Exclude? == excluded then [last.text] else []
  }

  ghost predicate ReadsAs(pieces: seq<string>, entries: seq<Entry>) {
    |pieces| == |entries| && forall k :: 0 <= k < |pieces| ==> ReadPiece(pieces[k]) == Some(entries[k])
  }

  lemma {:induction false} PiecesToTexts(pieces: seq<string>, entries: seq<Entry>)
    requires ReadsAs(pieces, entries)
    ensures Included(pieces) == Texts(entries, false) && Excluded(pieces) == Texts(entries, true)
  {
    if pieces != [] { PiecesToTexts(pieces[..|pieces| - 1], entries[..|entries| - 1]); }
  }

  lemma NothingInEmpty()
    ensures Included([""]) == [] && Excluded([""]) == []
  {
    assert TrimSpace("") == "";
    assert [""][..0] == [];
  }

  lemma PrintedReadsAs(entries: seq<Entry>)
    requires AllWritable(entries)
    ensures ReadsAs(Printed(entries), entries)
  {
    forall k | 0 <= k < |entries| ensures ReadPiece(Printed(entries)[k]) == Some(entries[k]) {
      PrintedIsRead(entries[k], "", "");
      assert "" + Print(entries[k]) + "" == Print(entries[k]);
    }
  }

  ghost predicate AllWritable(entries: seq<Entry>) {
    forall k :: 0 <= k < |entries| ==> Writable(entries[k])
  }

  /** Parsing undoes printing: any interleaving of inclusions and exclusions comes back, each list in its order. */
  lemma ParseUndoesPrint(entries: seq<Entry>)
    requires AllWritable(entries)
    ensures Included(Split(Join(Printed(entries)), ',')) == Texts(entries, false)
    ensures Excluded(Split(Join(Printed(entries)), ',')) == Texts(entries, true)
  {
    var pieces := Printed(entries);
    if entries != [] {
      SplitUndoesJoin(pieces);
      PrintedReadsAs(entries);
      PiecesToTexts(pieces, entries);
    } else {
      NothingInEmpty();
    }
  }

  /** The piece shows the entry: white space may stand around it and behind its dash. */
  ghost predicate Shows(piece: string, e: Entry, before: string, gap: string, after: string) {
    && AllSpace(before) && AllSpace(gap) && AllSpace(after)
    && piece == before + (if e.Include? then e.text else "-" + gap + e.text) + after
  }

  ghost predicate ShowsEntry(piece: string, e: Entry) {
    && Trimmed(e.text) && (e.Include? ==> e.text[0] != '-')
    && exists before, gap, after :: Shows(piece, e, before, gap, after)
  }

  /** A piece is read as an entry exactly when it shows that entry. */
  lemma ReadIffShown(piece: string, e: Entry)
    ensures ReadPiece(piece) == Some(e) <==> ShowsEntry(piece, e)
  {
    if ReadPiece(piece) == Some(e) { ReadIsShown(piece, e); }
    if ShowsEntry(piece, e) {
      var before, gap, after :| Shows(piece, e, before, gap, after);
      ShownIsRead(piece, e, before, gap, after);
    }
  }

  lemma ReadIsShown(piece: string, e: Entry)
    requires ReadPiece(piece) == Some(e)
    ensures ShowsEntry(piece, e)
  {
    var part := TrimSpace(piece);
    var before, after := TrimSpaceCorrect(piece);
    if part[0] == '-' {
      var gap, rest := TrimSpaceCorrect(part[1..]);
      Dashed(part, gap, e.text, rest);
      assert Shows(piece, e, before, gap, after);
    } else {
      assert Shows(piece, e, before, "", after);
    }
  }

  lemma Dashed(part: string, gap: string, val: string, rest: string)
    requires Trimmed(part) && part[0] == '-' && part[1..] == gap + val + rest && AllSpace(rest)
    ensures part == "-" + gap + val
  {
    if rest != "" { assert false; }
    assert part == ['-'] + part[1..];
  }

  lemma ShownIsRead(piece: string, e: Entry, before: string, gap: string, after: string)
    requires Trimmed(e.text) && (e.Include? ==> e.text[0] != '-') && Shows(piece, e, before, gap, after)
    ensures ReadPiece(piece) == Some(e)
  {
    if e.Include? {
      TrimPadded(before, e.text, after);
    } else {
      DashedIsRead(gap, e.text);
      TrimPadded(before, "-" + gap + e.text, after);
    }
  }

  lemma DashedIsRead(gap: string, val: string)
    requires Trimmed(val) && AllSpace(gap)
    ensures var part := "-" + gap + val; Trimmed(part) && TrimSpace(part[1..]) == val
  {
    var part := "-" + gap + val;
    assert part[|part| - 1] == val[|val| - 1];
    assert part[1..] == gap + val + "";
    TrimPadded(gap, val, "");
  }

  /** The ends of the text are graphic characters, it has no comma, and an inclusion does not start with a dash. */
  ghost predicate Legible(e: Entry) {
    && e.text != "" && IsGraphic(e.text[0]) && IsGraphic(e.text[|e.text| - 1])
    && ',' !in e.text && (e.Include? ==> e.text[0] != '-')
  }

  /** The piece is the entry with blanks around it and, for an exclusion, behind the dash. */
  ghost predicate LaidOut(piece: string, e: Entry) {
    exists before, gap, after :: Layout(piece, e, before, gap, after)
  }

  ghost predicate Layout(piece: string, e: Entry, before: string, gap: string, after: string) {
    && Blank(before) && Blank(gap) && Blank(after)
    && piece == before + (if e.Include? then e.text else "-" + gap + e.text) + after
  }

  lemma LaidOutIsRead(piece: string, e: Entry)
    requires Legible(e) && LaidOut(piece, e)
    ensures ReadPiece(piece) == Some(e) && ',' !in piece
  {
    var before, gap, after :| Layout(piece, e, before, gap, after);
    LayoutShows(piece, e, before, gap, after);
    GraphicsAreNotSpace(e.text[0]);
    GraphicsAreNotSpace(e.text[|e.text| - 1]);
    ShownIsRead(piece, e, before, gap, after);
  }

  lemma LayoutShows(piece: string, e: Entry, before: string, gap: string, after: string)
    requires ',' !in e.text && Layout(piece, e, before, gap, after)
    ensures Shows(piece, e, before, gap, after) && ',' !in piece
  {
    BlanksAreSpace(before);
    BlanksAreSpace(gap);
    BlanksAreSpace(after);
    NoComma(before, if e.Include? then e.text else "-" + gap + e.text, after);
  }

  lemma NoComma(a: string, b: string, c: string)
    requires ',' !in a && ',' !in b && ',' !in c
    ensures ',' !in a + b + c
  {
  }

  /** A list of legible entries, laid out in any way with blanks, is read as those entries in their order. */
  lemma LayoutIsIgnored(pieces: seq<string>, entries: seq<Entry>)
    requires |pieces| == |entries| > 0
    requires forall k :: 0 <= k < |entries| ==> Legible(entries[k]) && LaidOut(pieces[k], entries[k])
    ensures Included(Split(Join(pieces), ',')) == Texts(entries, false)
    ensures Excluded(Split(Join(pieces), ',')) == Texts(entries, true)
  {
    forall k | 0 <= k < |entries| { LaidOutIsRead(pieces[k], entries[k]); }
    SplitUndoesJoin(pieces);
    PiecesToTexts(pieces, entries);
  }

  // ---------------------------------------------------------------- every input has a canonical form

  lemma {:induction false} SplitLeavesNoSeparator(s: string, sep: char)
    ensures forall k :: 0 <= k < |Split(s, sep)| ==> sep !in Split(s, sep)[k]
  {
    if s != "" { SplitLeavesNoSeparator(s[1..], sep); }
  }

  lemma ReadIsWritable(piece: string)
    requires ',' !in piece && ReadPiece(piece).Some?
    ensures Writable(ReadPiece(piece).value)
  {
    var part := TrimSpace(piece);
    var before, after := TrimSpaceCorrect(piece);
    assert forall k :: 0 <= k < |part| ==> part[k] == piece[|before| + k];
    var before', after' := TrimSpaceCorrect(part[1..]);
    var val := TrimSpace(part[1..]);
    assert forall k :: 0 <= k < |val| ==> val[k] == part[1 + |before'| + k];
  }

  function Entries(pieces: seq<string>): seq<Entry> {
    if pieces == [] then []
    else
      var last := ReadPiece(pieces[|pieces| - 1]);
      Entries(pieces[..|pieces| - 1]) + if last.Some? then [last.value] else []
  }

  lemma {:induction false} EntriesOf(pieces: seq<string>)
    requires NoCommas(pieces)
    ensures AllWritable(Entries(pieces))
    ensures Texts(Entries(pieces), false) == Included(pieces) && Texts(Entries(pieces), true) == Excluded(pieces)
  {
    if pieces != [] {
      var front, last := pieces[..|pieces| - 1], ReadPiece(pieces[|pieces| - 1]);
      EntriesOf(front);
      if last.Some? {
        ReadIsWritable(pieces[|pieces| - 1]);
        var all := Entries(pieces);
        assert all[..|all| - 1] == Entries(front);
      } else {
        assert Entries(pieces) == Entries(front);
      }
    }
  }

  /** Whatever was parsed can be printed again, and parsing that gives the same two lists. */
  lemma ParsedHasCanonicalForm(s: string)
    ensures var entries := Entries(Split(s, ','));
            && AllWritable(entries)
            && Included(Split(Join(Printed(entries)), ',')) == Included(Split(s, ','))
            && Excluded(Split(Join(Printed(entries)), ',')) == Excluded(Split(s, ','))
  {
    SplitLeavesNoSeparator(s, ',');
    EntriesOf(Split(s, ','));
    ParseUndoesPrint(Entries(Split(s, ',')));
  }
}
