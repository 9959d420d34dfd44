/**
 * The text the export handler builds: one line per stored record,
 * "<date> - <TYPE>: $<amount to 2 decimals> - <description>", joined with
 * "\n" (Array.prototype.join). The download of that text is not modelled.
 */
module Export {
  import opened Wrappers
  import opened Decimal
  import opened Calendar
  import opened Expenses

  function UpperChar(c: char): char {
    if 'a' <= c <= 'z' then (c as int - 32) as char else c
  }

  /** String.prototype.toUpperCase on ASCII text. */
  function ToUpper(s: string): string {
    seq(|s|, i requires 0 <= i < |s| => UpperChar(s[i]))
  }

  /** expense.type.toUpperCase(). */
  function TypeLabel(k: Kind): (r: string)
    ensures r == (if k == Debit then "DEBIT" else "CREDIT")
  {
    ToUpper(KindName(k))
  }

  /** The export line of one record. */
  function Line(e: Expense): string {
    DateText(e.date) + " - " + TypeLabel(e.kind) + ": $" + Fixed2(e.amount) + " - " + e.description
  }

  /** expenses.map(line). The ensures only spares callers unfolding the comprehension. */
  function Lines(s: seq<Expense>): (r: seq<string>)
    ensures |r| == |s| && forall i :: 0 <= i < |s| ==> r[i] == Line(s[i])
  {
    seq(|s|, i requires 0 <= i < |s| => Line(s[i]))
  }

  /** Array.prototype.join(sep) on strings. */
  function Join(parts: seq<string>, sep: string): string {
    if |parts| == 0 then ""
    else if |parts| == 1 then parts[0]
    else parts[0] + sep + Join(parts[1..], sep)
  }

  /** The export text: expenses.map(line).join("\n"), over the store in insertion order. */
  function ExportText(s: seq<Expense>): string {
    Join(Lines(s), "\n")
  }

  /** String.prototype.split with a one-character separator. */
  function Split(s: string, sep: char): (r: seq<string>)
    ensures |r| >= 1
  {
    if s == [] then [[]]
    else
      var rest := Split(s[1..], sep);
      if s[0] == sep then [[]] + rest else [[s[0]] + rest[0]] + rest[1..]
  }

  lemma {:induction false} SplitNoSeparator(l: string, sep: char)
    requires sep !in l
    ensures Split(l, sep) == [l]
  {
    if l != [] {
      SplitNoSeparator(l[1..], sep);
      assert [l[0]] + l[1..] == l;
    }
  }

  lemma {:induction false} SplitAfterPart(l: string, sep: char, t: string)
    requires sep !in l
    ensures Split(l + [sep] + t, sep) == [l] + Split(t, sep)
  {
    var s := l + [sep] + t;
    if l == [] {
      assert s[1..] == t;
    } else {
      assert s[1..] == l[1..] + [sep] + t;
      SplitAfterPart(l[1..], sep, t);
      assert [l[0]] + l[1..] == l;
    }
  }

  /** Splitting a join on its separator gives the parts back when no part holds it. */
  lemma {:induction false} SplitJoin(parts: seq<string>, sep: char)
    requires |parts| >= 1
    requires forall i :: 0 <= i < |parts| ==> sep !in parts[i]
    ensures Split(Join(parts, [sep]), sep) == parts
  {
    if |parts| == 1 {
      SplitNoSeparator(parts[0], sep);
    } else {
      SplitJoin(parts[1..], sep);
      SplitAfterPart(parts[0], sep, Join(parts[1..], [sep]));
      assert [parts[0]] + parts[1..] == parts;
    }
  }

  /** A separator inside the text gives more than one piece. */
  lemma {:induction false} SplitAtSeparator(s: string, sep: char)
    requires sep in s
    ensures |Split(s, sep)| >= 2
  {
    if s[0] != sep {
      SplitAtSeparator(s[1..], sep);
    }
  }

  /** A line holds a line break only where its description does. */
  lemma LineBreaks(e: Expense)
    ensures '\n' in Line(e) <==> '\n' in e.description
  {
    DateTextChars(e.date);
    Fixed2Chars(e.amount);
    assert '\n' !in DateText(e.date);
    assert '\n' !in Fixed2(e.amount);
  }

  /** The export is empty exactly when the store is. */
  lemma ExportEmpty(s: seq<Expense>)
    ensures ExportText(s) == "" <==> s == []
  {
    if s != [] {
      assert |Line(s[0])| >= 10;
      if |s| > 1 {
        assert ExportText(s) == Line(s[0]) + "\n" + Join(Lines(s)[1..], "\n");
      }
    }
  }

  lemma {:induction false} JoinSnoc(parts: seq<string>, p: string, sep: string)
    requires parts != []
    ensures Join(parts + [p], sep) == Join(parts, sep) + sep + p
  {
    if |parts| == 1 {
      assert (parts + [p])[1..] == [p];
    } else {
      assert (parts + [p])[1..] == parts[1..] + [p];
      JoinSnoc(parts[1..], p, sep);
    }
  }

  /** A record added to a non-empty store adds one line at the end of the export. */
  lemma ExportAppend(s: seq<Expense>, e: Expense)
    ensures ExportText(s + [e]) ==
      if s == [] then Line(e) else ExportText(s) + "\n" + Line(e)
  {
    assert Lines(s + [e]) == Lines(s) + [Line(e)];
    if s != [] {
      JoinSnoc(Lines(s), Line(e), "\n");
    }
  }

  /** What an export line records: the day, the type, the shown hundredths and the description. */
  datatype LineFields = LineFields(date: Day, kind: Kind, cents: int, description: string)

  function Fields(e: Expense): LineFields {
    LineFields(e.date, e.kind, SignedCents(e.amount), e.description)
  }

  function StripPrefix(p: string, s: string): Option<string> {
    if p <= s then Some(s[|p|..]) else None
  }

  /** The index of the first c in s, or |s|. */
  function IndexOf(s: string, c: char): (i: nat)
    ensures i <= |s|
  {
    if s == [] || s[0] == c then 0 else 1 + IndexOf(s[1..], c)
  }

  function ParseTypeLabel(s: string): Option<(Kind, string)> {
    if "DEBIT" <= s then Some((Debit, s[5..]))
    else if "CREDIT" <= s then Some((Credit, s[6..]))
    else None
  }

  /** Reads "<amount> - <description>": the amount runs up to the first space. */
  function ParseAmountTail(t: string): Option<(int, string)> {
    var n := IndexOf(t, ' ');
    var cents :- ParseFixed2(t[..n]);
    var description :- StripPrefix(" - ", t[n..]);
    Some((cents, description))
  }

  /** Reads "<TYPE>: $<amount> - <description>". */
  function ParseTypeTail(t: string): Option<(Kind, int, string)> {
    var typed :- ParseTypeLabel(t);
    var afterType :- StripPrefix(": $", typed.1);
    var tail :- ParseAmountTail(afterType);
    Some((typed.0, tail.0, tail.1))
  }

  /** Reads an export line back into its fields. */
  function ParseLine(s: string): Option<LineFields> {
    if |s| < 10 then None
    else
      var date :- ParseDate(s[..10]);
      var afterDate :- StripPrefix(" - ", s[10..]);
      var tail :- ParseTypeTail(afterDate);
      Some(LineFields(date, tail.0, tail.1, tail.2))
  }

  lemma {:induction false} IndexOfFirst(p: string, c: char, t: string)
    requires c !in p
    ensures IndexOf(p + [c] + t, c) == |p|
  {
    if p != [] {
      assert (p + [c] + t)[1..] == p[1..] + [c] + t;
      IndexOfFirst(p[1..], c, t);
    }
  }

  lemma AmountTailRoundTrip(x: real, description: string)
    ensures ParseAmountTail(Fixed2(x) + " - " + description) == Some((SignedCents(x), description))
  {
    var f := Fixed2(x);
    var t := f + " - " + description;
    Fixed2Chars(x);
    assert ' ' !in f;
    assert t == f + [' '] + ("- " + description);
    IndexOfFirst(f, ' ', "- " + description);
    assert t[..|f|] == f;
    Fixed2RoundTrip(x);
    assert t[|f|..] == " - " + description;
  }

  lemma TypeTailRoundTrip(k: Kind, tail: string)
    ensures ParseTypeTail(TypeLabel(k) + ": $" + tail) ==
      match ParseAmountTail(tail)
      case None => None
      case Some(p) => Some((k, p.0, p.1))
  {
    var t := TypeLabel(k) + ": $" + tail;
    assert t == TypeLabel(k) + (": $" + tail);
    if k == Debit {
      assert "DEBIT" <= t;
    } else {
      assert !("DEBIT" <= t) by { assert t[0] == 'C'; }
      assert "CREDIT" <= t;
    }
    assert ParseTypeLabel(t) == Some((k, ": $" + tail));
    assert StripPrefix(": $", ": $" + tail) == Some(tail);
  }

  lemma DateHeadRoundTrip(d: Day, rest: string)
    ensures ParseLine(DateText(d) + " - " + rest) ==
      match ParseTypeTail(rest)
      case None => None
      case Some(t) => Some(LineFields(d, t.0, t.1, t.2))
  {
    var s := DateText(d) + " - " + rest;
    assert s[..10] == DateText(d);
    DateTextRoundTrip(d);
    assert s[10..] == " - " + rest;
  }

  /** Line(e) is the date, " - ", and the type tail. */
  lemma LineShape(e: Expense)
    ensures Line(e) == DateText(e.date) + " - " +
      (TypeLabel(e.kind) + ": $" + (Fixed2(e.amount) + " - " + e.description))
  {
  }

  /** An export line determines the record's day, type, shown amount and description. */
  lemma LineRoundTrip(e: Expense)
    ensures ParseLine(Line(e)) == Some(Fields(e))
  {
    var tail := Fixed2(e.amount) + " - " + e.description;
    LineShape(e);
    DateHeadRoundTrip(e.date, TypeLabel(e.kind) + ": $" + tail);
    TypeTailRoundTrip(e.kind, tail);
    AmountTailRoundTrip(e.amount, e.description);
  }

  /**
   * When no description holds a line break, the export text splits into
   * exactly one line per stored record, in store order, and each line reads
   * back as that record's fields.
   */
  lemma ExportRoundTrip(s: seq<Expense>)
    requires s != []
    requires forall i :: 0 <= i < |s| ==> '\n' !in s[i].description
    ensures |Split(ExportText(s), '\n')| == |s|
    ensures forall i :: 0 <= i < |s| ==> ParseLine(Split(ExportText(s), '\n')[i]) == Some(Fields(s[i]))
  {
    forall i | 0 <= i < |s|
      ensures '\n' !in Lines(s)[i]
    {
      LineBreaks(s[i]);
    }
    SplitJoin(Lines(s), '\n');
    forall i | 0 <= i < |s|
      ensures ParseLine(Lines(s)[i]) == Some(Fields(s[i]))
    {
      LineRoundTrip(s[i]);
    }
  }

  /** Splitting at one separator adds the pieces on its two sides. */
  lemma {:induction false} SplitConcatSep(l: string, sep: char, t: string)
    ensures |Split(l + [sep] + t, sep)| == |Split(l, sep)| + |Split(t, sep)|
  {
    var s := l + [sep] + t;
    if l == [] {
      assert s[1..] == t;
    } else {
      assert s[1..] == l[1..] + [sep] + t;
      SplitConcatSep(l[1..], sep, t);
    }
  }

  /** A join splits into at least one piece per part, and part j's extra pieces on top. */
  lemma {:induction false} SplitJoinCount(parts: seq<string>, sep: char, j: nat)
    requires j < |parts|
    ensures |Split(Join(parts, [sep]), sep)| >= |parts| + |Split(parts[j], sep)| - 1
  {
    if |parts| > 1 {
      SplitConcatSep(parts[0], sep, Join(parts[1..], [sep]));
      if j == 0 {
        SplitJoinCount(parts[1..], sep, 0);
      } else {
        SplitJoinCount(parts[1..], sep, j - 1);
      }
    }
  }

  /** A description with a line break gives its record more than one line of the export. */
  lemma MultilineDescription(s: seq<Expense>, j: nat)
    requires j < |s| && '\n' in s[j].description
    ensures |Split(ExportText(s), '\n')| > |s|
  {
    LineBreaks(s[j]);
    SplitAtSeparator(Line(s[j]), '\n');
    SplitJoinCount(Lines(s), '\n', j);
  }

  /** The export of a non-empty store has one line per record exactly when no description holds a line break. */
  lemma OneLinePerRecord(s: seq<Expense>)
    requires s != []
    ensures |Split(ExportText(s), '\n')| == |s| <==>
              forall i :: 0 <= i < |s| ==> '\n' !in s[i].description
  {
    if forall i :: 0 <= i < |s| ==> '\n' !in s[i].description {
      ExportRoundTrip(s);
    } else {
      var j :| 0 <= j < |s| && '\n' in s[j].description;
      MultilineDescription(s, j);
    }
  }

  /** toFixed(2) of the scenario's amounts. */
  lemma Fixed2Examples()
    ensures Fixed2(12.5) == "12.50"
    ensures Fixed2(40.0) == "40.00"
  {
    assert RoundCents(12.5) == 1250;
    assert RoundCents(40.0) == 4000;
    assert NatText(12) == NatText(1) + [DigitChar(2)];
    assert NatText(40) == NatText(4) + [DigitChar(0)];
    assert PadText(50, 2) == PadText(5, 1) + [DigitChar(0)];
    assert PadText(5, 1) == PadText(0, 0) + [DigitChar(5)];
    assert PadText(0, 2) == PadText(0, 1) + [DigitChar(0)];
    assert PadText(0, 1) == PadText(0, 0) + [DigitChar(0)];
  }

  /** The export of two records is their two lines joined by one line break. */
  lemma ExportPair(a: Expense, b: Expense)
    ensures ExportText([a, b]) == Line(a) + "\n" + Line(b)
  {
    ExportAppend([a], b);
    assert [a] + [b] == [a, b];
  }

  /**
   * The export after coffee (12.5, debit) and then rent (40, credit) are
   * added on day d: two lines, in that order.
   */
  lemma ScenarioExport(d: Day)
    ensures Line(Expense(12.5, Debit, "coffee", d)) == DateText(d) + " - " + "DEBIT" + ": $" + "12.50" + " - " + "coffee"
    ensures Line(Expense(40.0, Credit, "rent", d)) == DateText(d) + " - " + "CREDIT" + ": $" + "40.00" + " - " + "rent"
    ensures ExportText([Expense(12.5, Debit, "coffee", d), Expense(40.0, Credit, "rent", d)])
         == Line(Expense(12.5, Debit, "coffee", d)) + "\n" + Line(Expense(40.0, Credit, "rent", d))
  {
    Fixed2Examples();
    ExportPair(Expense(12.5, Debit, "coffee", d), Expense(40.0, Credit, "rent", d));
  }
}
