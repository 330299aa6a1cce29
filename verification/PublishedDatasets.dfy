/**
Published datasets as printed text: two of them have the same canonical bytes exactly when they differ in
nothing but the three publication values.
*/
module PublishedDatasets {
  import opened Wrappers
  import opened DatasetHash
  import Tokens

  // ----- Reading back one JSON value -----

  /**
  Where a reader is inside a value: how many brackets are open, and whether in a string or just after a
  backslash.
  */
  datatype Scan = Scan(depth: nat, inString: bool, escaped: bool)

  const START := Scan(0, false, false)

  /** Absent at a comma, a colon or a closing bracket outside the value: the value has ended. */
  function StepChar(s: Scan, c: char): (r: seq<Scan>)
    ensures |r| <= 1
  {
    if s.inString then
      [if s.escaped then s.(escaped := false) else if c == '\\' then s.(escaped := true)
       else if c == '"' then s.(inString := false) else s]
    else if c == '"' then [s.(inString := true)]
    else if c == '{' || c == '[' then [s.(depth := s.depth + 1)]
    else if c == '}' || c == ']' then (if s.depth == 0 then [] else [s.(depth := s.depth - 1)])
    else if s.depth == 0 && (c == ',' || c == ':') then []
    else [s]
  }

  function ScanText(s: Scan, text: string): (r: seq<Scan>)
    ensures |r| <= 1
    decreases |text|
  {
    if text == [] then [s]
    else
      var next := StepChar(s, text[0]);
      if next == [] then [] else ScanText(next[0], text[1..])
  }

  /** A compact value: quotes and brackets close, and no separator stands outside them. */
  predicate Closed(text: string) {
    text != [] && ScanText(START, text) == [START]
  }

  predicate Ends(text: string) {
    text != [] && StepChar(START, text[0]) == []
  }

  lemma {:induction false} ScanConcat(s: Scan, a: string, b: string)
    ensures ScanText(s, a + b) == if ScanText(s, a) == [] then [] else ScanText(ScanText(s, a)[0], b)
    decreases |a|
  {
    if a == [] {
      assert a + b == b;
    } else {
      assert (a + b)[1..] == a[1..] + b;
      var next := StepChar(s, a[0]);
      if next != [] { ScanConcat(next[0], a[1..], b); }
    }
  }

  lemma NoneIsLonger(a: string, b: string, x: string, y: string)
    requires Closed(a) && Closed(b) && Ends(x) && a + x == b + y
    ensures |b| <= |a|
  {
    if |a| < |b| {
      var rest := b[|a|..];
      assert b == a + rest by {
        assert a == (a + x)[..|a|] == (b + y)[..|a|] == b[..|a|];
      }
      assert rest[0] == (b + y)[|a|] == (a + x)[|a|] == x[0];
      ScanConcat(START, a, rest);
    }
  }

  /** A value printed before a separator can be read back in one way only. */
  lemma SplitIsUnique(a: string, b: string, x: string, y: string)
    requires Closed(a) && Closed(b) && Ends(x) && Ends(y) && a + x == b + y
    ensures a == b && x == y
  {
    NoneIsLonger(a, b, x, y);
    NoneIsLonger(b, a, y, x);
    assert a == (a + x)[..|a|] && b == (b + y)[..|b|];
    assert x == (a + x)[|a|..] && y == (b + y)[|b|..];
  }

  // ----- Printed snapshots -----

  datatype Field = Field(key: string, value: string)

  /** Field names need no escapes. */
  predicate PlainKey(key: string) {
    '"' !in key && '\\' !in key
  }

  ghost predicate Printable(fields: seq<Field>) {
    forall i | 0 <= i < |fields| ::
      PlainKey(fields[i].key) && Closed(fields[i].value) && !IsJsonSpace(fields[i].value[0])
  }

  function Quoted(key: string): string {
    "\"" + key + "\""
  }

  function MembersOf(fields: seq<Field>, first: bool): seq<Member> {
    if fields == [] then []
    else [Member(if first then "" else ",", Quoted(fields[0].key), fields[0].key, "", "", fields[0].value)]
         + MembersOf(fields[1..], false)
  }

  function Print(fields: seq<Field>): string {
    "{" + Text(MembersOf(fields, true), "}")
  }

  lemma {:induction false} InsideString(key: string)
    requires PlainKey(key)
    ensures ScanText(Scan(0, true, false), key) == [Scan(0, true, false)]
  {
    if key != [] { InsideString(key[1..]); }
  }

  lemma QuotedIsClosed(key: string)
    requires PlainKey(key)
    ensures Closed(Quoted(key))
  {
    var inside := Scan(0, true, false);
    InsideString(key);
    ScanConcat(inside, key, "\"");
    assert ScanText(inside, "\"") == [START] by { assert "\""[1..] == ""; }
    assert Quoted(key)[1..] == key + "\"";
  }

  function Printed(fields: seq<Field>, first: bool, after: string): string {
    Text(MembersOf(fields, first), "}" + after)
  }

  lemma PrintedFirst(fields: seq<Field>, first: bool, after: string)
    requires fields != []
    ensures Printed(fields, first, after)
            == (if first then "" else ",")
               + (Quoted(fields[0].key) + (":" + (fields[0].value + Printed(fields[1..], false, after))))
  {
    var members := MembersOf(fields, first);
    assert members[1..] == MembersOf(fields[1..], false);
    PutTogether(if first then "" else ",", Quoted(fields[0].key), fields[0].value + Printed(fields[1..], false, after));
  }

  lemma PutTogether(lead: string, key: string, tail: string)
    ensures (lead + key + "" + ":" + "") + tail == lead + (key + (":" + tail))
  {
  }

  lemma SameLead(lead: string, x: string, y: string)
    requires lead + x == lead + y
    ensures x == y
  {
    assert x == (lead + x)[|lead|..] && y == (lead + y)[|lead|..];
  }

  lemma StartsWith(lead: string, key: string, tail: string)
    ensures (lead + (Quoted(key) + tail))[0] == if lead == [] then '"' else lead[0]
  {
  }

  /** After a value comes a comma or the closing brace. */
  lemma PrintedEnds(fields: seq<Field>, after: string)
    ensures Ends(Printed(fields, false, after))
  {
    if fields != [] {
      PrintedFirst(fields, false, after);
      StartsWith(",", fields[0].key, ":" + (fields[0].value + Printed(fields[1..], false, after)));
    }
  }

  lemma EmptyOrNot(fields: seq<Field>, first: bool, after: string)
    ensures Printed(fields, first, after) != [] && (Printed(fields, first, after)[0] == '}' <==> fields == [])
  {
    if fields != [] {
      PrintedFirst(fields, first, after);
      StartsWith(if first then "" else ",", fields[0].key,
                 ":" + (fields[0].value + Printed(fields[1..], false, after)));
    }
  }

  /** Printing loses nothing: the text gives back the fields, and what follows them. */
  lemma {:induction false} PrintingIsInjective(f: seq<Field>, g: seq<Field>, first: bool, x: string, y: string)
    requires Printable(f) && Printable(g) && Printed(f, first, x) == Printed(g, first, y)
    ensures f == g && x == y
    decreases |f|
  {
    EmptyOrNot(f, first, x);
    EmptyOrNot(g, first, y);
    if f == [] {
      SameLead("}", x, y);
    } else {
      FirstFieldIsBack(f, g, first, x, y);
      PrintingIsInjective(f[1..], g[1..], false, x, y);
      assert f == [f[0]] + f[1..] && g == [g[0]] + g[1..];
    }
  }

  lemma FirstFieldIsBack(f: seq<Field>, g: seq<Field>, first: bool, x: string, y: string)
    requires f != [] && g != [] && Printable(f) && Printable(g) && Printed(f, first, x) == Printed(g, first, y)
    ensures f[0] == g[0] && Printed(f[1..], false, x) == Printed(g[1..], false, y)
  {
    var fRest, gRest := Printed(f[1..], false, x), Printed(g[1..], false, y);
    PrintedFirst(f, first, x);
    PrintedFirst(g, first, y);
    var fTail, gTail := ":" + (f[0].value + fRest), ":" + (g[0].value + gRest);
    SameLead(if first then "" else ",", Quoted(f[0].key) + fTail, Quoted(g[0].key) + gTail);
    QuotedIsClosed(f[0].key);
    QuotedIsClosed(g[0].key);
    SplitIsUnique(Quoted(f[0].key), Quoted(g[0].key), fTail, gTail);
    assert f[0].key == Quoted(f[0].key)[1..|f[0].key| + 1] && g[0].key == Quoted(g[0].key)[1..|g[0].key| + 1];
    SameLead(":", f[0].value + fRest, g[0].value + gRest);
    PrintedEnds(f[1..], x);
    PrintedEnds(g[1..], y);
    SplitIsUnique(f[0].value, g[0].value, fRest, gRest);
  }

  // ----- Canonical bytes -----

  /** A published dataset: the snapshot's fields first, then the rest of the record, kept as it is. */
  datatype Dataset = Dataset(fields: seq<Field>, rest: string)

  ghost predicate Published(d: Dataset) {
    && Printable(d.fields) && d.rest != "" && d.rest[|d.rest| - 1] == '}'
    && (forall i, j | 0 <= i < j < |d.fields| :: d.fields[i].key != d.fields[j].key)
    && (forall k | k in TARGETS :: exists i | 0 <= i < |d.fields| :: d.fields[i].key == k)
    && (forall i | 0 <= i < |d.fields| && d.fields[i].key in TARGETS ::
         |d.fields[i].value| >= 2 && d.fields[i].value[0] == '"')
  }

  function Bytes(d: Dataset): string {
    PREFIX + Print(d.fields) + d.rest
  }

  function BlankFields(fields: seq<Field>, targets: set<string>): seq<Field> {
    seq(|fields|, i requires 0 <= i < |fields| =>
          if fields[i].key in targets then fields[i].(value := EMPTY) else fields[i])
  }

  /** The record with its three publication values set to empty strings. */
  function BlankRecord(d: Dataset): Dataset {
    Dataset(BlankFields(d.fields, TARGETS), d.rest)
  }

  /** The blanked record: the three publication values are empty strings, everything else is as it was. */
  lemma BlankRecordMeans(d: Dataset)
    ensures BlankRecord(d).rest == d.rest && |BlankRecord(d).fields| == |d.fields|
    ensures forall i | 0 <= i < |d.fields| ::
      && BlankRecord(d).fields[i].key == d.fields[i].key
      && BlankRecord(d).fields[i].value
         == if d.fields[i].key in {"id", "dataset_hash", "published_at"} then "\"\"" else d.fields[i].value
  {
  }

  lemma BlankFieldsFirst(fields: seq<Field>, targets: set<string>)
    requires fields != [] && forall i, j | 0 <= i < j < |fields| :: fields[i].key != fields[j].key
    ensures var f := fields[0];
            BlankFields(fields, targets)
            == if f.key in targets then [f.(value := EMPTY)] + BlankFields(fields[1..], targets - {f.key})
               else [f] + BlankFields(fields[1..], targets)
  {
  }

  lemma MembersOfCons(f: Field, rest: seq<Field>, first: bool)
    ensures MembersOf([f] + rest, first)
            == [Member(if first then "" else ",", Quoted(f.key), f.key, "", "", f.value)] + MembersOf(rest, false)
  {
    assert ([f] + rest)[1..] == rest;
  }

  lemma {:induction false} BlankedMembers(fields: seq<Field>, first: bool, targets: set<string>)
    requires forall i, j | 0 <= i < j < |fields| :: fields[i].key != fields[j].key
    ensures Blanked(MembersOf(fields, first), targets) == MembersOf(BlankFields(fields, targets), first)
    decreases |fields|
  {
    if fields != [] {
      var f, rest := fields[0], fields[1..];
      var left := if f.key in targets then targets - {f.key} else targets;
      BlankedMembers(rest, false, left);
      assert MembersOf(fields, first)[1..] == MembersOf(rest, false);
      BlankFieldsFirst(fields, targets);
      MembersOfCons(if f.key in targets then f.(value := EMPTY) else f, BlankFields(rest, left), first);
    }
  }

  lemma {:induction false} PublishableMembers(fields: seq<Field>, first: bool, targets: set<string>)
    requires forall i, j | 0 <= i < j < |fields| :: fields[i].key != fields[j].key
    requires forall k | k in targets :: exists i | 0 <= i < |fields| :: fields[i].key == k
    requires forall i | 0 <= i < |fields| && fields[i].key in targets ::
          |fields[i].value| >= 2 && fields[i].value[0] == '"'
    ensures Publishable(MembersOf(fields, first), targets)
    decreases |fields|
  {
    if fields == [] {
      assert targets == {};
    } else {
      var left := if fields[0].key in targets then targets - {fields[0].key} else targets;
      assert MembersOf(fields, first)[1..] == MembersOf(fields[1..], false);
      forall k | k in left ensures exists i | 0 <= i < |fields[1..]| :: fields[1..][i].key == k {
        var i :| 0 <= i < |fields| && fields[i].key == k;
        assert fields[1..][i - 1].key == k;
      }
      PublishableMembers(fields[1..], false, left);
    }
  }

  lemma {:induction false} MembersAreWellFormed(fields: seq<Field>, first: bool)
    requires forall i | 0 <= i < |fields| :: fields[i].value != [] && !IsJsonSpace(fields[i].value[0])
    ensures forall i | 0 <= i < |MembersOf(fields, first)| :: WellFormed(MembersOf(fields, first)[i])
    decreases |fields|
  {
    if fields != [] { MembersAreWellFormed(fields[1..], false); }
  }

  lemma TakeApart(a: string, b: string, c: string)
    ensures a + b <= a + b + c && (a + b + c)[|a + b|..] == c
  {
  }

  lemma {:induction false} TrimDropsSpaces(text: string, padding: string)
    requires text != "" && !Tokens.IsSpace(text[0]) && !Tokens.IsSpace(text[|text| - 1])
    requires forall i | 0 <= i < |padding| :: Tokens.IsSpace(padding[i])
    ensures Tokens.TrimRight(text + padding) == text && Tokens.Trim(text + padding) == text
    decreases |padding|
  {
    if padding == [] {
      assert text + padding == text;
    } else {
      var n := |padding| - 1;
      assert (text + padding)[..|text + padding| - 1] == text + padding[..n];
      TrimDropsSpaces(text, padding[..n]);
    }
  }

  lemma PublishedDecodes(d: Dataset)
    requires Published(d)
    ensures Decodes(Decoded(MembersOf(d.fields, true), "}"), Print(d.fields))
    ensures Publishable(MembersOf(d.fields, true), TARGETS)
    ensures Text(Blanked(MembersOf(d.fields, true), TARGETS), "}") == Text(MembersOf(BlankRecord(d).fields, true), "}")
  {
    PublishableMembers(d.fields, true, TARGETS);
    MembersAreWellFormed(d.fields, true);
    BlankedMembers(d.fields, true, TARGETS);
  }

  /** For a published dataset, cutting the three values out of the bytes is printing the blanked record. */
  method CanonicalOfPublished(d: Dataset, padding: string) returns (r: Result<string, Error>)
    requires Published(d) && forall i | 0 <= i < |padding| :: Tokens.IsSpace(padding[i])
    ensures r == Ok(Bytes(BlankRecord(d)))
  {
    var members := MembersOf(d.fields, true);
    PublishedDecodes(d);
    PublishableMeans(members, TARGETS);
    TakeApart(PREFIX, Print(d.fields), d.rest);
    TrimDropsSpaces(Bytes(d), padding);
    r := CanonicalBytes(Bytes(d) + padding, Some(Print(d.fields)), Some(Decoded(members, "}")));
  }

  lemma BlankRecordIsPrintable(d: Dataset)
    requires Published(d)
    ensures Printable(BlankRecord(d).fields)
  {
    assert Closed(EMPTY) by { QuotedIsClosed(""); assert Quoted("") == EMPTY; }
  }

  lemma BytesAsPrinted(d: Dataset)
    ensures Bytes(d) == (PREFIX + "{") + Printed(d.fields, true, d.rest)
  {
    ClosingMoves(d.fields, true, d.rest);
    Regroup(PREFIX, "{", Text(MembersOf(d.fields, true), "}"), d.rest);
  }

  lemma Regroup(a: string, b: string, c: string, d: string)
    ensures a + (b + c) + d == (a + b) + (c + d)
  {
  }

  lemma {:induction false} ClosingMoves(fields: seq<Field>, first: bool, after: string)
    ensures Text(MembersOf(fields, first), "}") + after == Printed(fields, first, after)
    decreases |fields|
  {
    if fields != [] {
      ClosingMoves(fields[1..], false, after);
      var members := MembersOf(fields, first);
      assert members[1..] == MembersOf(fields[1..], false);
      Shift(Before(members[0]), members[0].value, Text(members[1..], "}"), after);
    }
  }

  lemma Shift(a: string, b: string, c: string, d: string)
    ensures a + (b + c) + d == a + (b + (c + d))
  {
  }

  /** Two datasets that agree everywhere but in the three publication values. */
  ghost predicate DifferOnlyInPublication(d: Dataset, e: Dataset) {
    && d.rest == e.rest && |d.fields| == |e.fields|
    && forall i | 0 <= i < |d.fields| ::
         && d.fields[i].key == e.fields[i].key
         && (d.fields[i].value == e.fields[i].value || d.fields[i].key in {"id", "dataset_hash", "published_at"})
  }

  lemma SameBytesSameRecord(d: Dataset, e: Dataset)
    requires Published(d) && Published(e) && Bytes(BlankRecord(d)) == Bytes(BlankRecord(e))
    ensures BlankRecord(d) == BlankRecord(e)
  {
    var b, c := BlankRecord(d), BlankRecord(e);
    BytesAsPrinted(b);
    BytesAsPrinted(c);
    SameLead(PREFIX + "{", Printed(b.fields, true, b.rest), Printed(c.fields, true, c.rest));
    BlankRecordIsPrintable(d);
    BlankRecordIsPrintable(e);
    PrintingIsInjective(b.fields, c.fields, true, b.rest, c.rest);
  }

  lemma BlankedAlike(d: Dataset, e: Dataset)
    requires BlankRecord(d) == BlankRecord(e)
    ensures DifferOnlyInPublication(d, e)
  {
    forall i | 0 <= i < |d.fields|
      ensures d.fields[i].key == e.fields[i].key
      ensures d.fields[i].value == e.fields[i].value || d.fields[i].key in TARGETS
    {
      assert BlankRecord(d).fields[i] == BlankRecord(e).fields[i];
    }
  }

  /**
  Equal canonical bytes mean exactly that: the publication values do not matter, and any other difference
  survives.
  */
  lemma CanonicalBytesTellRecordsApart(d: Dataset, e: Dataset)
    requires Published(d) && Published(e)
    ensures Bytes(BlankRecord(d)) == Bytes(BlankRecord(e)) <==> DifferOnlyInPublication(d, e)
  {
    if DifferOnlyInPublication(d, e) {
      assert BlankRecord(d).fields == BlankRecord(e).fields;
    }
    if Bytes(BlankRecord(d)) == Bytes(BlankRecord(e)) {
      SameBytesSameRecord(d, e);
      BlankedAlike(d, e);
    }
  }
}
