/**
The canonical bytes of a published dataset (internal/investigation/core/dataset_hash_compat.go): three
values of its snapshot are cut out of the printed text, so that fields unknown to this program keep their bytes.
Bytes are characters; the digest of the canonical bytes is taken to be injective.
*/
module DatasetHash {
  import opened Wrappers
  import Tokens

  const PREFIX := "{\"Snapshot\":"
  const EMPTY := "\"\""

  const ID := "id"
  const DATASET_HASH := "dataset_hash"
  const PUBLISHED_AT := "published_at"

  const TARGETS: set<string> := {ID, DATASET_HASH, PUBLISHED_AT}

  // ----- A snapshot as the decoder sees it -----

  /** One member as written: what precedes the key, the quoted key, the colon with its spaces, the value. */
  datatype Member = Member(lead: string, keyText: string, key: string, beforeColon: string, afterColon: string,
                           value: string)

  predicate IsJsonSpace(c: char) {
    c == ' ' || c == '\t' || c == '\n' || c == '\r'
  }

  predicate WellFormed(m: Member) {
    && (forall i | 0 <= i < |m.beforeColon| :: IsJsonSpace(m.beforeColon[i]))
    && (forall i | 0 <= i < |m.afterColon| :: IsJsonSpace(m.afterColon[i]))
    && m.value != [] && !IsJsonSpace(m.value[0])
  }

  function Before(m: Member): string {
    m.lead + m.keyText + m.beforeColon + ":" + m.afterColon
  }

  /** The members as written, and what closes the object. */
  function Text(members: seq<Member>, closing: string): string {
    if members == [] then closing else Before(members[0]) + (members[0].value + Text(members[1..], closing))
  }

  /** A value that may be cut: a string literal, with only blanks and tabs before it. */
  predicate Cuttable(m: Member) {
    && (forall i | 0 <= i < |m.afterColon| :: m.afterColon[i] == ' ' || m.afterColon[i] == '\t')
    && |m.value| >= 2 && m.value[0] == '"'
  }

  /** The members with the first value of each target key emptied. */
  function Blanked(members: seq<Member>, targets: set<string>): seq<Member> {
    if members == [] then []
    else if members[0].key in targets then
      [members[0].(value := EMPTY)] + Blanked(members[1..], targets - {members[0].key})
    else [members[0]] + Blanked(members[1..], targets)
  }

  /** Every target is there, and its first value may be cut. */
  predicate Publishable(members: seq<Member>, targets: set<string>) {
    if members == [] then targets == {}
    else if members[0].key in targets then Cuttable(members[0]) && Publishable(members[1..], targets - {members[0].key})
    else Publishable(members[1..], targets)
  }

  /** Member number i is the first with its key. */
  predicate IsFirst(members: seq<Member>, i: nat)
    requires i < |members|
  {
    forall j | 0 <= j < i :: members[j].key != members[i].key
  }

  ghost predicate HasCuttable(members: seq<Member>, key: string) {
    exists i: nat :: i < |members| && members[i].key == key && IsFirst(members, i) && IsPlainString(members[i])
  }

  /** A string literal that only blanks and tabs separate from its colon. */
  predicate IsPlainString(m: Member) {
    && |m.value| >= 2 && m.value[0] == '\"'
    && forall i | 0 <= i < |m.afterColon| :: m.afterColon[i] in " \t"
  }

  lemma FirstOfRest(members: seq<Member>, i: nat)
    requires 0 < i < |members| && members[i].key != members[0].key
    ensures IsFirst(members, i) <==> IsFirst(members[1..], i - 1)
  {
    if IsFirst(members[1..], i - 1) {
      forall j | 0 <= j < i ensures members[j].key != members[i].key {
        if j > 0 { assert members[j] == members[1..][j - 1]; }
      }
    }
  }

  lemma HasCuttableRest(members: seq<Member>, key: string)
    requires members != []
    ensures HasCuttable(members, key) <==>
      if members[0].key == key then IsPlainString(members[0]) else HasCuttable(members[1..], key)
  {
    if members[0].key == key {
      if IsPlainString(members[0]) { assert IsFirst(members, 0); }
    } else {
      if HasCuttable(members, key) {
        var i: nat :| i < |members| && members[i].key == key && IsFirst(members, i) && IsPlainString(members[i]);
        FirstOfRest(members, i);
        assert members[1..][i - 1] == members[i];
      }
      if HasCuttable(members[1..], key) {
        var i: nat :| i < |members[1..]| && members[1..][i].key == key && IsFirst(members[1..], i)
                      && IsPlainString(members[1..][i]);
        FirstOfRest(members, i + 1);
        assert members[i + 1] == members[1..][i];
      }
    }
  }

  /** A record can be published when the first member of every target key may be cut. */
  lemma {:induction false} PublishableMeans(members: seq<Member>, targets: set<string>)
    ensures Publishable(members, targets) <==> forall k | k in targets :: HasCuttable(members, k)
  {
    if members != [] {
      var m, rest := members[0], members[1..];
      forall k ensures HasCuttable(members, k) <==> if m.key == k then Cuttable(m) else HasCuttable(rest, k) {
        HasCuttableRest(members, k);
      }
      PublishableMeans(rest, targets);
      PublishableMeans(rest, targets - {m.key});
    }
  }

  /** Only values change, only of the first member of a target key, and they become empty strings. */
  lemma {:induction false} BlankedMeans(members: seq<Member>, targets: set<string>)
    ensures |Blanked(members, targets)| == |members|
    ensures forall i | 0 <= i < |members| ::
      Blanked(members, targets)[i]
      == if members[i].key in targets && IsFirst(members, i) then members[i].(value := "\"\"") else members[i]
  {
    if members != [] {
      var m, rest := members[0], members[1..];
      var left := if m.key in targets then targets - {m.key} else targets;
      BlankedMeans(rest, left);
      forall i | 0 <= i < |members|
        ensures Blanked(members, targets)[i]
                == if members[i].key in targets && IsFirst(members, i) then members[i].(value := "\"\"") else members[i]
      {
        if i > 0 {
          assert Blanked(members, targets)[i] == Blanked(rest, left)[i - 1] && rest[i - 1] == members[i];
          if members[i].key == m.key { assert !IsFirst(members, i); } else { FirstOfRest(members, i); }
        }
      }
    }
  }

  // ----- Cutting from right to left -----

  datatype Span = Span(start: nat, end: nat)

  function SpansFrom(members: seq<Member>, offset: nat, targets: set<string>): seq<Span> {
    if members == [] then []
    else
      var start := offset + |Before(members[0])|;
      var end := start + |members[0].value|;
      if members[0].key in targets then [Span(start, end)] + SpansFrom(members[1..], end, targets - {members[0].key})
      else SpansFrom(members[1..], end, targets)
  }

  /** The spans replaced by empty strings, the last one first; a span out of range would be skipped. */
  ghost function Spliced(text: string, spans: seq<Span>): string {
    if spans == [] then text
    else
      var later := Spliced(text, spans[1..]);
      var s := spans[0];
      if s.start <= s.end <= |later| then later[..s.start] + EMPTY + later[s.end..] else later
  }

  /** No span is out of range when its turn comes. */
  ghost predicate InRange(text: string, spans: seq<Span>) {
    spans == [] || (InRange(text, spans[1..]) && spans[0].start <= spans[0].end <= |Spliced(text, spans[1..])|)
  }

  ghost predicate CutsTo(text: string, spans: seq<Span>, result: string) {
    InRange(text, spans) && Spliced(text, spans) == result
  }

  lemma Assoc(before: string, own: string, value: string, tail: string)
    ensures (before + own + value) + tail == before + (own + (value + tail))
  {
  }

  lemma Slices(head: string, value: string, tail: string)
    ensures ((head + value) + tail)[..|head|] == head
    ensures ((head + value) + tail)[|head| + |value|..] == tail
  {
  }

  lemma CutFirst(text: string, spans: seq<Span>, head: string, value: string, tail: string)
    requires spans != [] && spans[0] == Span(|head|, |head| + |value|)
    requires CutsTo(text, spans[1..], (head + value) + tail)
    ensures CutsTo(text, spans, head + EMPTY + tail)
  {
    Slices(head, value, tail);
  }

  lemma TextOfBlanked(members: seq<Member>, closing: string, targets: set<string>)
    requires members != []
    ensures var m := members[0];
            Text(Blanked(members, targets), closing)
            == if m.key in targets then Before(m) + (EMPTY + Text(Blanked(members[1..], targets - {m.key}), closing))
               else Before(m) + (m.value + Text(Blanked(members[1..], targets), closing))
  {
    var m := members[0];
    assert Before(m.(value := EMPTY)) == Before(m);
    var left := if m.key in targets then targets - {m.key} else targets;
    assert Blanked(members, targets)[1..] == Blanked(members[1..], left);
  }

  /** A text in which everything up to the first member is passed over. */
  function Beyond(before: string, m: Member): string {
    before + Before(m) + m.value
  }

  lemma TextBeyond(before: string, members: seq<Member>, closing: string)
    requires members != []
    ensures before + Text(members, closing) == Beyond(before, members[0]) + Text(members[1..], closing)
    ensures |Beyond(before, members[0])| == |before| + |Before(members[0])| + |members[0].value|
  {
    Assoc(before, Before(members[0]), members[0].value, Text(members[1..], closing));
  }

  lemma CutFirstMember(text: string, before: string, members: seq<Member>, closing: string, targets: set<string>)
    requires members != [] && members[0].key in targets
    requires var rest, left := members[1..], targets - {members[0].key};
             CutsTo(text, SpansFrom(rest, |Beyond(before, members[0])|, left),
                    Beyond(before, members[0]) + Text(Blanked(rest, left), closing))
    ensures CutsTo(text, SpansFrom(members, |before|, targets), before + Text(Blanked(members, targets), closing))
  {
    var m := members[0];
    var spans := SpansFrom(members, |before|, targets);
    var tail := Text(Blanked(members[1..], targets - {m.key}), closing);
    assert spans[1..] == SpansFrom(members[1..], |Beyond(before, m)|, targets - {m.key});
    CutFirst(text, spans, before + Before(m), m.value, tail);
    TextOfBlanked(members, closing, targets);
    Assoc(before, Before(m), EMPTY, tail);
  }

  lemma KeepFirstMember(text: string, before: string, members: seq<Member>, closing: string, targets: set<string>)
    requires members != [] && members[0].key !in targets
    requires CutsTo(text, SpansFrom(members[1..], |Beyond(before, members[0])|, targets),
                    Beyond(before, members[0]) + Text(Blanked(members[1..], targets), closing))
    ensures CutsTo(text, SpansFrom(members, |before|, targets), before + Text(Blanked(members, targets), closing))
  {
    TextOfBlanked(members, closing, targets);
    Assoc(before, Before(members[0]), members[0].value, Text(Blanked(members[1..], targets), closing));
  }

  /** Cutting the spans out of the text is printing the members with their values emptied. */
  lemma {:induction false} SplicedIsBlanked(text: string, before: string, members: seq<Member>, closing: string,
                                            targets: set<string>)
    requires text == before + Text(members, closing)
    ensures CutsTo(text, SpansFrom(members, |before|, targets), before + Text(Blanked(members, targets), closing))
    decreases |members|
  {
    if members != [] {
      var m := members[0];
      TextBeyond(before, members, closing);
      if m.key in targets {
        SplicedIsBlanked(text, Beyond(before, m), members[1..], closing, targets - {m.key});
        CutFirstMember(text, before, members, closing, targets);
      } else {
        SplicedIsBlanked(text, Beyond(before, m), members[1..], closing, targets);
        KeepFirstMember(text, before, members, closing, targets);
      }
    }
  }

  lemma {:induction false} InRangeFrom(text: string, spans: seq<Span>, i: nat)
    requires InRange(text, spans) && i <= |spans|
    ensures InRange(text, spans[i..])
  {
    if i > 0 {
      InRangeFrom(text, spans[1..], i - 1);
      assert spans[1..][i - 1..] == spans[i..];
    } else {
      assert spans[0..] == spans;
    }
  }

  method Splice(text: string, spans: seq<Span>) returns (spliced: string)
    requires InRange(text, spans)
    ensures spliced == Spliced(text, spans)
  {
    spliced := text;
    var i := |spans|;
    while i > 0
      invariant 0 <= i <= |spans|
      invariant spliced == Spliced(text, spans[i..])
    {
      i := i - 1;
      InRangeFrom(text, spans, i);
      assert spans[i..][1..] == spans[i + 1..];
      spliced := spliced[..spans[i].start] + EMPTY + spliced[spans[i].end..];
    }
    assert spans[0..] == spans;
  }

  // ----- Finding the values -----

  /** The first colon after the key; absent when there is none. */
  method IndexOfColon(segment: string) returns (colon: Option<nat>)
    ensures colon.None? ==> ':' !in segment
    ensures colon.Some? ==> colon.value < |segment| && segment[colon.value] == ':' && ':' !in segment[..colon.value]
  {
    for i := 0 to |segment|
      invariant ':' !in segment[..i]
    {
      if segment[i] == ':' {
        return Some(i);
      }
    }
    return None;
  }

  predicate IsBlank(c: char) {
    c == ' ' || c == '\t'
  }

  method SkipBlanks(text: string, start: nat) returns (i: nat)
    requires start <= |text|
    ensures start <= i <= |text| && forall k | start <= k < i :: IsBlank(text[k])
    ensures i < |text| ==> !IsBlank(text[i])
  {
    i := start;
    while i < |text| && IsBlank(text[i])
      invariant start <= i <= |text| && forall k | start <= k < i :: IsBlank(text[k])
    {
      i := i + 1;
    }
  }

  lemma ColonIsAfterSpaces(m: Member, segment: string, colon: nat)
    requires WellFormed(m) && segment == m.beforeColon + ":" + m.afterColon + m.value
    requires colon < |segment| && segment[colon] == ':' && ':' !in segment[..colon]
    ensures colon == |m.beforeColon|
  {
    assert segment[|m.beforeColon|] == ':';
  }

  /** Where the value starts, when only blanks and tabs separate it from the colon. */
  lemma SkippingFindsTheValue(m: Member, text: string, colonEnd: nat, start: nat)
    requires WellFormed(m) && colonEnd <= start <= |text| && colonEnd + |m.afterColon| + |m.value| <= |text|
    requires text[colonEnd..colonEnd + |m.afterColon| + |m.value|] == m.afterColon + m.value
    requires (forall k | colonEnd <= k < start :: IsBlank(text[k])) && (start < |text| ==> !IsBlank(text[start]))
    ensures colonEnd <= start <= colonEnd + |m.afterColon|
    ensures text[start..colonEnd + |m.afterColon| + |m.value|] == m.value <==>
          (forall i | 0 <= i < |m.afterColon| :: IsBlank(m.afterColon[i]))
    ensures text[start..colonEnd + |m.afterColon| + |m.value|] == m.value ==> start == colonEnd + |m.afterColon|
  {
    var segment := m.afterColon + m.value;
    var end := colonEnd + |segment|;
    assert forall k | 0 <= k < |segment| :: text[colonEnd + k] == segment[k] by {
      forall k | 0 <= k < |segment| ensures text[colonEnd + k] == segment[k] {
        assert text[colonEnd..end][k] == segment[k];
      }
    }
    assert text[colonEnd + |m.afterColon|] == m.value[0];
    if start < colonEnd + |m.afterColon| {
      assert |text[start..end]| > |m.value|;
      assert !IsBlank(m.afterColon[start - colonEnd]);
    } else {
      assert text[start..end] == m.value;
      forall i | 0 <= i < |m.afterColon| ensures IsBlank(m.afterColon[i]) {
        assert text[colonEnd + i] == segment[i];
      }
    }
  }

  /**
  The span of one value, from what the decoder reports: the offset after the key and the offset after the
  value, which lie around the rest of the member.
  */
  method ValueSpan(snapshot: string, keyEnd: nat, valueEnd: nat, ghost m: Member, value: string)
    returns (span: Option<Span>)
    requires keyEnd <= valueEnd <= |snapshot| && WellFormed(m) && value == m.value
    requires snapshot[keyEnd..valueEnd] == m.beforeColon + ":" + m.afterColon + m.value
    ensures span.Some? <==> Cuttable(m)
    ensures span.Some? ==> span.value == Span(valueEnd - |value|, valueEnd)
  {
    var segment := snapshot[keyEnd..valueEnd];
    var colon := IndexOfColon(segment);
    assert segment[|m.beforeColon|] == ':';
    if colon.None? {
      return None;
    }
    ColonIsAfterSpaces(m, segment, colon.value);
    AfterTheColon(m, snapshot, keyEnd, valueEnd);
    var start := SkipBlanks(snapshot, keyEnd + colon.value + 1);
    SkippingFindsTheValue(m, snapshot, keyEnd + colon.value + 1, start);
    if snapshot[start..valueEnd] != value || |value| < 2 || value[0] != '"' {
      return None;
    }
    return Some(Span(start, valueEnd));
  }

  lemma AfterTheColon(m: Member, text: string, keyEnd: nat, valueEnd: nat)
    requires keyEnd <= valueEnd <= |text| && text[keyEnd..valueEnd] == m.beforeColon + ":" + m.afterColon + m.value
    ensures var colonEnd := keyEnd + |m.beforeColon| + 1;
            colonEnd + |m.afterColon| + |m.value| == valueEnd && text[colonEnd..valueEnd] == m.afterColon + m.value
  {
    var segment := text[keyEnd..valueEnd];
    assert segment[|m.beforeColon| + 1..] == m.afterColon + m.value;
    assert text[keyEnd + |m.beforeColon| + 1..valueEnd] == segment[|m.beforeColon| + 1..];
  }

  lemma MemberSlice(snapshot: string, offset: nat, members: seq<Member>, closing: string)
    requires members != [] && offset <= |snapshot| && snapshot[offset..] == Text(members, closing)
    ensures var m := members[0];
            var keyEnd := offset + |m.lead| + |m.keyText|;
            var valueEnd := offset + |Before(m)| + |m.value|;
            && keyEnd <= valueEnd <= |snapshot|
            && snapshot[keyEnd..valueEnd] == m.beforeColon + ":" + m.afterColon + m.value
            && snapshot[valueEnd..] == Text(members[1..], closing)
  {
    var m := members[0];
    var own, rest := Before(m), Text(members[1..], closing);
    var keyEnd, valueEnd := offset + |m.lead| + |m.keyText|, offset + |own| + |m.value|;
    assert snapshot[offset..][..|own|] == own;
    assert snapshot[offset..][|own|..] == m.value + rest;
    assert snapshot[offset..][|own| + |m.value|..] == rest;
    assert snapshot[valueEnd..] == snapshot[offset..][|own| + |m.value|..];
    assert snapshot[offset + |own|..valueEnd] == m.value;
    assert own[|m.lead| + |m.keyText|..] == m.beforeColon + ":" + m.afterColon;
    assert snapshot[keyEnd..offset + |own|] == own[|m.lead| + |m.keyText|..];
    assert snapshot[keyEnd..valueEnd] == snapshot[keyEnd..offset + |own|] + snapshot[offset + |own|..valueEnd];
  }

  /** What a pass over the members has found so far, and what is left to find. */
  ghost predicate FoundSoFar(members: seq<Member>, spans: seq<Span>, rest: seq<Member>, offset: nat,
                             targets: set<string>) {
    && (Publishable(members, TARGETS) <==> Publishable(rest, targets))
    && SpansFrom(members, 1, TARGETS) == spans + SpansFrom(rest, offset, targets)
  }

  lemma FoundNext(members: seq<Member>, spans: seq<Span>, rest: seq<Member>, offset: nat, targets: set<string>)
    requires rest != [] && FoundSoFar(members, spans, rest, offset, targets)
    ensures var m := rest[0]; var start := offset + |Before(m)|; var end := start + |m.value|;
            if m.key in targets then
              && (Cuttable(m) ==> FoundSoFar(members, spans + [Span(start, end)], rest[1..], end, targets - {m.key}))
              && (!Cuttable(m) ==> !Publishable(members, TARGETS))
            else FoundSoFar(members, spans, rest[1..], end, targets)
  {
    var m := rest[0];
    var start := offset + |Before(m)|;
    var end := start + |m.value|;
    if m.key in targets {
      var tail := SpansFrom(rest[1..], end, targets - {m.key});
      assert spans + ([Span(start, end)] + tail) == (spans + [Span(start, end)]) + tail;
    }
  }

  /** The decoder's pass over the members; absent when a publication field is missing or is not a plain string. */
  method CollectSpans(snapshot: string, members: seq<Member>, ghost closing: string) returns (found: Option<seq<Span>>)
    requires snapshot == "{" + Text(members, closing)
    requires forall i | 0 <= i < |members| :: WellFormed(members[i])
    ensures found.Some? <==> Publishable(members, TARGETS)
    ensures found.Some? ==> found.value == SpansFrom(members, 1, TARGETS)
  {
    var targets, spans: seq<Span>, offset: nat := TARGETS, [], 1;
    assert members[0..] == members;
    for i := 0 to |members|
      invariant offset <= |snapshot| && snapshot[offset..] == Text(members[i..], closing)
      invariant FoundSoFar(members, spans, members[i..], offset, targets)
    {
      var m := members[i];
      assert members[i..][0] == m && members[i..][1..] == members[i + 1..];
      MemberSlice(snapshot, offset, members[i..], closing);
      FoundNext(members, spans, members[i..], offset, targets);
      var keyEnd := offset + |m.lead| + |m.keyText|;
      var valueEnd := offset + |Before(m)| + |m.value|;
      if m.key in targets {
        var span := ValueSpan(snapshot, keyEnd, valueEnd, m, m.value);
        if span.None? {
          return None;
        }
        spans := spans + [span.value];
        targets := targets - {m.key};
      }
      offset := valueEnd;
    }
    if targets != {} {
      return None;
    }
    assert spans + [] == spans;
    return Some(spans);
  }

  // ----- The canonical bytes -----

  lemma PrefixOfSum(a: string, b: string, text: string)
    ensures a + b <= text <==> a <= text && b <= text[|a|..]
  {
    if a + b <= text {
      assert a == (a + b)[..|a|] && b == (a + b)[|a|..];
      assert text[..|a|] == a && text[|a|..][..|b|] == b;
    }
    if a <= text && b <= text[|a|..] {
      assert text == a + text[|a|..] && text[|a|..] == b + text[|a|..][|b|..];
    }
  }

  /** What decoding the snapshot yields: its members and what closes it. */
  datatype Decoded = Decoded(members: seq<Member>, closing: string)

  ghost predicate Decodes(d: Decoded, snapshot: string) {
    snapshot == "{" + Text(d.members, d.closing) && forall i | 0 <= i < |d.members| :: WellFormed(d.members[i])
  }

  datatype Error = SnapshotMissing | NotPublishedForm | NotAnObject | BadPublicationField

  /**
  `snapshot` is the raw value that decoding the trimmed text gives its Snapshot field, absent when the text is
  not valid JSON; `decoded` is that value's members, absent when it is not an object.
  */
  method CanonicalBytes(text: string, snapshot: Option<string>, decoded: Option<Decoded>)
    returns (r: Result<string, Error>)
    requires snapshot.Some? && decoded.Some? ==> Decodes(decoded.value, snapshot.value)
    ensures r.Ok? <==> snapshot.Some? && snapshot.value != "" && "{\"Snapshot\":" + snapshot.value <= Tokens.Trim(text)
                       && decoded.Some?
                       && forall k | k in {"id", "dataset_hash", "published_at"} ::
                            HasCuttable(decoded.value.members, k)
    ensures r.Ok? ==>
      r.value == "{\"Snapshot\":"
                 + ("{" + Text(Blanked(decoded.value.members, {"id", "dataset_hash", "published_at"}),
                               decoded.value.closing))
                 + Tokens.Trim(text)[|PREFIX + snapshot.value|..]
  {
    if decoded.Some? { PublishableMeans(decoded.value.members, TARGETS); }
    var raw := Tokens.Trim(text);
    if snapshot.None? || snapshot.value == "" {
      return Err(SnapshotMissing);
    }
    r := CutTrimmed(raw, snapshot.value, decoded);
  }

  method CutTrimmed(raw: string, snapshot: string, decoded: Option<Decoded>) returns (r: Result<string, Error>)
    requires decoded.Some? ==> Decodes(decoded.value, snapshot)
    ensures r.Ok? <==> PREFIX + snapshot <= raw && decoded.Some? && Publishable(decoded.value.members, TARGETS)
    ensures r.Ok? ==> r.value == PREFIX + ("{" + Text(Blanked(decoded.value.members, TARGETS), decoded.value.closing))
                                 + raw[|PREFIX + snapshot|..]
  {
    PrefixOfSum(PREFIX, snapshot, raw);
    if !(PREFIX <= raw) || !(snapshot <= raw[|PREFIX|..]) {
      return Err(NotPublishedForm);
    }
    if decoded.None? {
      return Err(NotAnObject);
    }
    var d := decoded.value;
    var spans := CollectSpans(snapshot, d.members, d.closing);
    if spans.None? {
      return Err(BadPublicationField);
    }
    SplicedIsBlanked(snapshot, "{", d.members, d.closing, TARGETS);
    var blanked := Splice(snapshot, spans.value);
    r := Ok(raw[..|PREFIX|] + blanked + raw[|PREFIX| + |snapshot|..]);
  }
}
