/**
JSON values as text: each of them, printed without spaces, can be the value of a field of a published record,
because a reader finds where it ends.
*/
module JsonValues {
  import opened PublishedDatasets
  import DatasetHash

  /** A character of a JSON string as written: plain, or after a backslash. */
  datatype Written = Plain(c: char) | Escaped(c: char)

  /** A JSON value; a scalar is a number, true, false or null. */
  datatype Json = Scalar(text: string) | Text(chars: seq<Written>) | List(items: Items) | Object(members: Members)

  datatype Items = NoItem | Item(value: Json, rest: Items)

  datatype Members = NoMember | MemberOf(key: seq<Written>, value: Json, rest: Members)

  predicate IsProper(chars: seq<Written>) {
    forall i | 0 <= i < |chars| && chars[i].Plain? :: chars[i].c != '"' && chars[i].c != '\\'
  }

  predicate IsScalar(text: string) {
    text != [] && forall i | 0 <= i < |text| :: text[i] !in "\"{}[],:"
  }

  predicate IsValue(j: Json) {
    match j
    case Scalar(text) => IsScalar(text)
    case Text(chars) => IsProper(chars)
    case List(items) => AreValues(items)
    case Object(members) => AreMembers(members)
  }

  predicate AreValues(items: Items) {
    items.Item? ==> IsValue(items.value) && AreValues(items.rest)
  }

  predicate AreMembers(members: Members) {
    members.MemberOf? ==> IsProper(members.key) && IsValue(members.value) && AreMembers(members.rest)
  }

  function WrittenText(chars: seq<Written>): string {
    if chars == [] then ""
    else (if chars[0].Plain? then [chars[0].c] else ['\\', chars[0].c]) + WrittenText(chars[1..])
  }

  function PrintValue(j: Json): string {
    match j
    case Scalar(text) => text
    case Text(chars) => "\"" + WrittenText(chars) + "\""
    case List(items) => "[" + PrintItems(items, true) + "]"
    case Object(members) => "{" + PrintMembers(members, true) + "}"
  }

  function PrintItems(items: Items, first: bool): string {
    match items
    case NoItem => ""
    case Item(value, rest) => (if first then "" else ",") + PrintValue(value) + PrintItems(rest, false)
  }

  function PrintMembers(members: Members, first: bool): string {
    match members
    case NoMember => ""
    case MemberOf(key, value, rest) =>
      (if first then "" else ",") + ("\"" + WrittenText(key) + "\"" + ":" + PrintValue(value))
      + PrintMembers(rest, false)
  }

  /** A text after which the reader is where it was. */
  predicate Neutral(s: Scan, text: string) {
    ScanText(s, text) == [s]
  }

  lemma NeutralConcat(s: Scan, a: string, b: string)
    requires Neutral(s, a) && Neutral(s, b)
    ensures Neutral(s, a + b)
  {
    ScanConcat(s, a, b);
  }

  lemma Between(s: Scan, t: Scan, open: char, text: string, close: char)
    requires StepChar(s, open) == [t] && Neutral(t, text) && StepChar(t, close) == [s]
    ensures Neutral(s, [open] + text + [close])
  {
    ScanConcat(s, [open], text + [close]);
    ScanConcat(t, text, [close]);
    assert [open] + text + [close] == [open] + (text + [close]);
    assert [open][1..] == "" && [close][1..] == "";
  }

  lemma {:induction false} StringsAreNeutral(depth: nat, chars: seq<Written>)
    requires IsProper(chars)
    ensures Neutral(Scan(depth, true, false), WrittenText(chars))
  {
    if chars != [] {
      var s := Scan(depth, true, false);
      StringsAreNeutral(depth, chars[1..]);
      if chars[0].Plain? {
        assert [chars[0].c][1..] == "";
        assert Neutral(s, [chars[0].c]);
        NeutralConcat(s, [chars[0].c], WrittenText(chars[1..]));
      } else {
        var pair := ['\\', chars[0].c];
        assert pair[1..] == [chars[0].c] && [chars[0].c][1..] == "";
        assert ScanText(s.(escaped := true), pair[1..]) == [s];
        NeutralConcat(s, pair, WrittenText(chars[1..]));
      }
    }
  }

  lemma QuotedIsNeutral(depth: nat, chars: seq<Written>)
    requires IsProper(chars)
    ensures Neutral(Scan(depth, false, false), "\"" + WrittenText(chars) + "\"")
  {
    StringsAreNeutral(depth, chars);
    Between(Scan(depth, false, false), Scan(depth, true, false), '"', WrittenText(chars), '"');
  }

  lemma {:induction false} ScalarsAreNeutral(depth: nat, text: string)
    requires forall i | 0 <= i < |text| :: text[i] !in "\"{}[],:"
    ensures Neutral(Scan(depth, false, false), text)
  {
    if text != [] {
      assert text[0] !in "\"{}[],:";
      ScalarsAreNeutral(depth, text[1..]);
    }
  }

  lemma SeparatorIsNeutral(depth: nat, separator: char)
    requires depth > 0 && (separator == ',' || separator == ':')
    ensures Neutral(Scan(depth, false, false), [separator])
  {
    assert [separator][1..] == "";
  }

  /** Reading a printed value, at any depth, leaves the reader where it was. */
  lemma {:induction false} ValuesAreNeutral(depth: nat, j: Json)
    requires IsValue(j)
    ensures Neutral(Scan(depth, false, false), PrintValue(j))
    decreases j, 1
  {
    var s, inner := Scan(depth, false, false), Scan(depth + 1, false, false);
    match j {
      case Scalar(text) => ScalarsAreNeutral(depth, text);
      case Text(chars) => QuotedIsNeutral(depth, chars);
      case List(items) =>
        ItemsAreNeutral(depth + 1, items, true);
        Between(s, inner, '[', PrintItems(items, true), ']');
      case Object(members) =>
        MembersAreNeutral(depth + 1, members, true);
        Between(s, inner, '{', PrintMembers(members, true), '}');
    }
  }

  lemma {:induction false} ItemsAreNeutral(depth: nat, items: Items, first: bool)
    requires depth > 0 && AreValues(items)
    ensures Neutral(Scan(depth, false, false), PrintItems(items, first))
    decreases items, 0
  {
    match items {
      case NoItem =>
      case Item(value, rest) =>
        var s := Scan(depth, false, false);
        var lead := if first then "" else ",";
        ValuesAreNeutral(depth, value);
        ItemsAreNeutral(depth, rest, false);
        SeparatorIsNeutral(depth, ',');
        NeutralConcat(s, lead, PrintValue(value));
        NeutralConcat(s, lead + PrintValue(value), PrintItems(rest, false));
    }
  }

  lemma {:induction false} MembersAreNeutral(depth: nat, members: Members, first: bool)
    requires depth > 0 && AreMembers(members)
    ensures Neutral(Scan(depth, false, false), PrintMembers(members, first))
    decreases members, 0
  {
    match members {
      case NoMember =>
      case MemberOf(key, value, rest) =>
        var s := Scan(depth, false, false);
        var lead, own := if first then "" else ",", "\"" + WrittenText(key) + "\"" + ":" + PrintValue(value);
        ValuesAreNeutral(depth, value);
        MembersAreNeutral(depth, rest, false);
        SeparatorIsNeutral(depth, ',');
        PairIsNeutral(depth, key, PrintValue(value));
        NeutralConcat(s, lead, own);
        NeutralConcat(s, lead + own, PrintMembers(rest, false));
    }
  }

  lemma PairIsNeutral(depth: nat, key: seq<Written>, text: string)
    requires depth > 0 && IsProper(key) && Neutral(Scan(depth, false, false), text)
    ensures Neutral(Scan(depth, false, false), "\"" + WrittenText(key) + "\"" + ":" + text)
  {
    var s, name := Scan(depth, false, false), "\"" + WrittenText(key) + "\"";
    QuotedIsNeutral(depth, key);
    SeparatorIsNeutral(depth, ':');
    NeutralConcat(s, name, ":");
    NeutralConcat(s, name + ":", text);
  }

  /** Every JSON value printed without spaces is closed, and does not begin with one. */
  lemma ValuesAreClosed(j: Json)
    requires IsValue(j) && (j.Scalar? ==> !DatasetHash.IsJsonSpace(j.text[0]))
    ensures Closed(PrintValue(j)) && !DatasetHash.IsJsonSpace(PrintValue(j)[0])
  {
    ValuesAreNeutral(0, j);
  }
}
