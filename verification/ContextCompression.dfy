/**
Fitting a collected context into 4000 tokens (compress in internal/contextcollector/collector.go): what
matters least goes first, and cutting the last command or the last error adds a note that costs tokens too.
*/
module ContextCompression {
  import opened Wrappers
  import opened Tokens

  const MAX_CONTEXT_TOKENS := 4000

  const COMMAND := "last_command"
  const ERROR := "last_error"

  datatype MainFile = MainFile(path: string, excerpt: string)

  datatype ToolResult = ToolResult(ok: bool, toolName: string, summary: string, raw: string)

  // ----- Counting -----

  function CountOption(text: Option<string>): nat {
    if text.Some? then Count(text.value) else 0
  }

  function CountFiles(files: seq<MainFile>): nat {
    if files == [] then 0
    else CountFiles(files[..|files| - 1]) + Count(files[|files| - 1].path) + Count(files[|files| - 1].excerpt)
  }

  function CountResult(result: ToolResult): nat {
    if !result.ok then 0
    else Count(result.toolName) + Count(if Trim(result.summary) != "" then result.summary else result.raw)
  }

  function CountResults(results: seq<ToolResult>): nat {
    if results == [] then 0 else CountResults(results[..|results| - 1]) + CountResult(results[|results| - 1])
  }

  function CountNotes(notes: seq<string>): nat {
    if notes == [] then 0 else CountNotes(notes[..|notes| - 1]) + Count(notes[|notes| - 1])
  }

  /** The texts one after the other, with a space after each. */
  function Joined(texts: seq<string>): string {
    if texts == [] then "" else Joined(texts[..|texts| - 1]) + texts[|texts| - 1] + " "
  }

  function OptionText(text: Option<string>): seq<string> {
    if text.Some? then [text.value] else []
  }

  function FileTexts(files: seq<MainFile>): seq<string> {
    if files == [] then []
    else FileTexts(files[..|files| - 1]) + [files[|files| - 1].path, files[|files| - 1].excerpt]
  }

  /** A tool that failed counts for nothing; one that succeeded, by its summary or else by what it printed. */
  function ResultTexts(results: seq<ToolResult>): seq<string> {
    if results == [] then []
    else
      var last := results[|results| - 1];
      ResultTexts(results[..|results| - 1])
      + if last.ok then [last.toolName, if Count(last.summary) > 0 then last.summary else last.raw] else []
  }

  lemma JoinedSnoc(texts: seq<string>, text: string)
    ensures Count(Joined(texts + [text])) == Count(Joined(texts)) + Count(text)
  {
    assert (texts + [text])[..|texts|] == texts;
    CountConcat(Joined(texts), text);
    CountConcat(Joined(texts) + text, " ");
    OnlySpaces(" ");
    JoinedEndsInSpace(texts);
  }

  lemma JoinedEndsInSpace(texts: seq<string>)
    ensures texts == [] || (Joined(texts) != "" && IsSpace(Joined(texts)[|Joined(texts)| - 1]))
  {
  }

  lemma LastApart(texts: seq<string>, more: seq<string>)
    requires more != []
    ensures var n := |more| - 1;
            more == more[..n] + [more[n]] && texts + more == (texts + more[..n]) + [more[n]]
  {
  }

  lemma {:induction false} JoinedConcat(texts: seq<string>, more: seq<string>)
    ensures Count(Joined(texts + more)) == Count(Joined(texts)) + Count(Joined(more))
  {
    if more == [] {
      assert texts + more == texts;
    } else {
      var n := |more| - 1;
      JoinedConcat(texts, more[..n]);
      LastApart(texts, more);
      JoinedSnoc(texts + more[..n], more[n]);
      JoinedSnoc(more[..n], more[n]);
    }
  }

  lemma JoinedOption(text: Option<string>)
    ensures Count(Joined(OptionText(text))) == CountOption(text)
  {
    if text.Some? {
      assert [] + [text.value] == [text.value];
      JoinedSnoc([], text.value);
    }
  }

  lemma JoinedPair(a: string, b: string)
    ensures Count(Joined([a, b])) == Count(a) + Count(b)
  {
    assert [] + [a] == [a] && [a] + [b] == [a, b];
    JoinedSnoc([], a);
    JoinedSnoc([a], b);
  }

  lemma {:induction false} JoinedFiles(files: seq<MainFile>)
    ensures Count(Joined(FileTexts(files))) == CountFiles(files)
  {
    if files != [] {
      var n := |files| - 1;
      JoinedFiles(files[..n]);
      JoinedConcat(FileTexts(files[..n]), [files[n].path, files[n].excerpt]);
      JoinedPair(files[n].path, files[n].excerpt);
    }
  }

  lemma {:induction false} JoinedResults(results: seq<ToolResult>)
    ensures Count(Joined(ResultTexts(results))) == CountResults(results)
  {
    if results != [] {
      var n := |results| - 1;
      var last := results[n];
      JoinedResults(results[..n]);
      TrimKeepsTokens(last.summary);
      var shown := if Count(last.summary) > 0 then last.summary else last.raw;
      JoinedConcat(ResultTexts(results[..n]), if last.ok then [last.toolName, shown] else []);
      JoinedPair(last.toolName, shown);
    }
  }

  lemma {:induction false} JoinedNotes(notes: seq<string>)
    ensures Count(Joined(notes)) == CountNotes(notes)
  {
    if notes != [] {
      var n := |notes| - 1;
      JoinedNotes(notes[..n]);
      assert notes == notes[..n] + [notes[n]];
      JoinedSnoc(notes[..n], notes[n]);
    }
  }

  // ----- Notes -----

  function Itoa(n: nat): string {
    if n < 10 then ["0123456789"[n]] else Itoa(n / 10) + ["0123456789"[n % 10]]
  }

  function NotePrefix(field: string): string {
    "[" + field + " truncado"
  }

  /** The number a decimal text stands for. */
  function Decimal(text: string): nat {
    if text == "" then 0
    else
      var digit := text[|text| - 1];
      10 * Decimal(text[..|text| - 1]) + if '0' <= digit <= '9' then digit as int - '0' as int else 0
  }

  predicate IsDigits(text: string) {
    text != "" && forall i | 0 <= i < |text| :: '0' <= text[i] <= '9'
  }

  lemma DecimalSnoc(text: string, d: nat)
    requires d < 10
    ensures var c := "0123456789"[d]; '0' <= c <= '9' && c as int - '0' as int == d
    ensures Decimal(text + ["0123456789"[d]]) == 10 * Decimal(text) + d
  {
    var c := "0123456789"[d];
    assert (text + [c])[..|text|] == text;
  }

  /** The number in a note can be read back, and is written without a needless zero. */
  lemma {:induction false} ItoaReadsBack(n: nat)
    ensures Decimal(Itoa(n)) == n && IsDigits(Itoa(n)) && (n > 0 ==> Itoa(n)[0] != '0')
    decreases n
  {
    DecimalSnoc("", n % 10);
    if n < 10 {
      assert "" + ["0123456789"[n]] == Itoa(n);
    } else {
      ItoaReadsBack(n / 10);
      DecimalSnoc(Itoa(n / 10), n % 10);
    }
  }

  predicate IsAbout(note: string, field: string) {
    NotePrefix(field) <= note
  }

  function FieldNote(field: string, tokens: nat): string {
    NotePrefix(field) + " \U{2014} exibindo primeiros " + Itoa(tokens) + " tokens]"
  }

  /** What the two notes look like. */
  lemma NotesRead(tokens: nat)
    ensures FieldNote(COMMAND, tokens)
            == "[" + "last_command" + " truncado" + " \U{2014} exibindo primeiros " + Itoa(tokens) + " tokens]"
    ensures FieldNote(ERROR, tokens)
            == "[" + "last_error" + " truncado" + " \U{2014} exibindo primeiros " + Itoa(tokens) + " tokens]"
    ensures IsAbout("[" + "last_command" + " truncado", COMMAND) && IsAbout("[" + "last_error" + " truncado", ERROR)
  {
  }

  /** The notes that do not belong to a field, and those that do, in order. */
  function Without(notes: seq<string>, field: string): seq<string> {
    if notes == [] then []
    else
      var last := notes[|notes| - 1];
      var rest := Without(notes[..|notes| - 1], field);
      if IsAbout(last, field) then rest else rest + [last]
  }

  function Of(notes: seq<string>, field: string): seq<string> {
    if notes == [] then []
    else
      var last := notes[|notes| - 1];
      var rest := Of(notes[..|notes| - 1], field);
      if IsAbout(last, field) then rest + [last] else rest
  }

  /** Notes about something else than a cut field. */
  function Plain(notes: seq<string>): seq<string> {
    Without(Without(notes, COMMAND), ERROR)
  }

  function Upserted(notes: seq<string>, field: string, tokens: nat): seq<string> {
    Without(notes, field) + [FieldNote(field, tokens)]
  }

  ghost predicate Apart(field: string, other: string) {
    forall note :: IsAbout(note, field) ==> !IsAbout(note, other)
  }

  lemma LabelsAreApart()
    ensures Apart(COMMAND, ERROR) && Apart(ERROR, COMMAND)
  {
    assert NotePrefix(COMMAND)[6] == 'c' && NotePrefix(ERROR)[6] == 'e';
    forall note: string | IsAbout(note, COMMAND) || IsAbout(note, ERROR)
      ensures |note| > 6 && (IsAbout(note, COMMAND) ==> note[6] == 'c') && (IsAbout(note, ERROR) ==> note[6] == 'e')
    {
    }
  }

  lemma WithoutSnoc(notes: seq<string>, note: string, field: string)
    ensures Without(notes + [note], field)
            == if IsAbout(note, field) then Without(notes, field) else Without(notes, field) + [note]
    ensures Of(notes + [note], field) == if IsAbout(note, field) then Of(notes, field) + [note] else Of(notes, field)
  {
    assert (notes + [note])[..|notes|] == notes;
  }

  lemma {:induction false} OfWithout(notes: seq<string>, field: string, other: string)
    ensures Of(Without(notes, field), field) == []
    ensures Apart(field, other) ==> Of(Without(notes, field), other) == Of(notes, other)
  {
    if notes != [] {
      var n := |notes| - 1;
      OfWithout(notes[..n], field, other);
      WithoutSnoc(Without(notes[..n], field), notes[n], field);
      WithoutSnoc(Without(notes[..n], field), notes[n], other);
    }
  }

  lemma {:induction false} WithoutIsInOne(notes: seq<string>, field: string)
    ensures Without(Without(notes, field), field) == Without(notes, field)
  {
    if notes != [] {
      var n := |notes| - 1;
      WithoutIsInOne(notes[..n], field);
      WithoutSnoc(Without(notes[..n], field), notes[n], field);
    }
  }

  lemma {:induction false} WithoutCommutes(notes: seq<string>, field: string, other: string)
    ensures Without(Without(notes, field), other) == Without(Without(notes, other), field)
  {
    if notes != [] {
      var n := |notes| - 1;
      var fewer, note := notes[..n], notes[n];
      WithoutCommutes(fewer, field, other);
      WithoutSnoc(Without(fewer, field), note, other);
      WithoutSnoc(Without(fewer, other), note, field);
    }
  }

  /** An upsert leaves exactly one note of its field and touches no other. */
  lemma UpsertLeavesOne(notes: seq<string>, field: string, other: string, tokens: nat)
    requires Apart(field, other)
    ensures var after := Upserted(notes, field, tokens);
            && Of(after, field) == [FieldNote(field, tokens)] && Of(after, other) == Of(notes, other)
            && Without(Without(after, field), other) == Without(Without(notes, field), other)
  {
    var kept, note := Without(notes, field), FieldNote(field, tokens);
    assert [note] == [] + [note];
    OfWithout(notes, field, other);
    WithoutIsInOne(notes, field);
    assert IsAbout(note, field);
    WithoutSnoc(kept, note, field);
    WithoutSnoc(kept, note, other);
  }

  method UpsertFieldNote(notes: seq<string>, field: string, tokens: nat) returns (updated: seq<string>)
    ensures updated == Upserted(notes, field, tokens)
  {
    updated := [];
    for i := 0 to |notes|
      invariant updated == Without(notes[..i], field)
    {
      assert notes[..i + 1][..i] == notes[..i];
      if !IsAbout(notes[i], field) {
        updated := updated + [notes[i]];
      }
    }
    assert notes[..|notes|] == notes;
    updated := updated + [FieldNote(field, tokens)];
  }

  // ----- What compression may do -----

  /** The parts of a context that compression touches. */
  datatype Parts = Parts(gitLog: Option<string>, readme: Option<string>, mainFiles: seq<MainFile>,
                         gitDiff: Option<string>, lastCommand: Option<string>, lastError: Option<string>,
                         notes: seq<string>)

  /** An optional text may be dropped, kept, or cut at its end. */
  predicate Shortened(now: Option<string>, was: Option<string>) {
    now.None? || (was.Some? && now.value <= was.value)
  }

  predicate ExcerptsGone(files: seq<MainFile>) {
    |files| <= 1 && (|files| == 1 ==> files[0].excerpt == "")
  }

  predicate FilesShortened(now: seq<MainFile>, was: seq<MainFile>) {
    && (now <= was || |now| == 1)
    && |now| <= |was|
    && (|now| == 1 ==> now[0].path == was[0].path && now[0].excerpt <= was[0].excerpt)
  }

  /** The note about a cut field says how many tokens of it are left. */
  predicate Noted(was: Option<string>, now: Option<string>, before: seq<string>, after: seq<string>, field: string) {
    if now == was then Of(after, field) == Of(before, field)
    else now.Some? && Of(after, field) == [FieldNote(field, Count(now.value))]
  }

  /** Nothing is left to cut. */
  predicate AtFloor(p: Parts) {
    && p.gitLog.None? && p.readme.None? && ExcerptsGone(p.mainFiles) && p.gitDiff.None?
    && CountOption(p.lastCommand) <= 1 && CountOption(p.lastError) <= 1
  }

  /** Each part is only shortened, and only after every part before it has nothing left to give. */
  predicate InOrder(was: Parts, now: Parts) {
    && (now.gitLog.None? || now.gitLog == was.gitLog)
    && (now.readme.None? || now.readme == was.readme)
    && FilesShortened(now.mainFiles, was.mainFiles)
    && Shortened(now.gitDiff, was.gitDiff)
    && Shortened(now.lastCommand, was.lastCommand) && Shortened(now.lastError, was.lastError)
    && (now.readme != was.readme ==> now.gitLog.None?)
    && (now.mainFiles != was.mainFiles ==> now.gitLog.None? && now.readme.None?)
    && (now.gitDiff != was.gitDiff ==> now.gitLog.None? && now.readme.None? && ExcerptsGone(now.mainFiles))
    && (now.lastCommand != was.lastCommand ==>
          now.gitLog.None? && now.readme.None? && ExcerptsGone(now.mainFiles) && now.gitDiff.None?)
    && (now.lastError != was.lastError ==>
          now.gitLog.None? && now.readme.None? && ExcerptsGone(now.mainFiles) && now.gitDiff.None?
          && CountOption(now.lastCommand) <= 1)
  }

  predicate NotesTell(was: Parts, now: Parts) {
    && Noted(was.lastCommand, now.lastCommand, was.notes, now.notes, COMMAND)
    && Noted(was.lastError, now.lastError, was.notes, now.notes, ERROR)
    && Plain(now.notes) == Plain(was.notes)
  }

  predicate Compressed(was: Parts, now: Parts) {
    InOrder(was, now) && NotesTell(was, now)
  }

  /** How much of a text may stay when the whole context has `total` tokens: what fits in 4000, or one. */
  function Left(tokens: nat, total: int): nat {
    if tokens - (total - 4000) < 1 then 1 else tokens - (total - 4000)
  }

  /** A cut text keeps its first tokens, exactly as many as may stay. */
  ghost predicate Cut(was: Option<string>, now: Option<string>, total: int) {
    && was.Some? && now.Some? && IsCut(was.value, Left(Count(was.value), total), now.value)
    && Count(was.value) > Left(Count(was.value), total)
  }

  lemma CutMeans(was: Option<string>, now: Option<string>, total: int)
    requires Cut(was, now, total)
    ensures now.value < was.value && Count(now.value) == Left(Count(was.value), total) < Count(was.value)
  {
  }

  /** One cut of a context of so many tokens: the first part that has something to give gives it. */
  ghost predicate CutStep(p: Parts, q: Parts, total: int) {
    if p.gitLog.Some? then q == p.(gitLog := None)
    else if p.readme.Some? then q == p.(readme := None)
    else if |p.mainFiles| > 1 then q == p.(mainFiles := p.mainFiles[..|p.mainFiles| - 1])
    else if |p.mainFiles| == 1 && p.mainFiles[0].excerpt != "" then
      && q == p.(mainFiles := q.mainFiles)
      && if Count(p.mainFiles[0].excerpt) <= 1 then q.mainFiles == []
         else
           && |q.mainFiles| == 1 && q.mainFiles[0].path == p.mainFiles[0].path
           && Cut(Some(p.mainFiles[0].excerpt), Some(q.mainFiles[0].excerpt), total)
    else if p.gitDiff.Some? then
      && q == p.(gitDiff := q.gitDiff)
      && if CountOption(p.gitDiff) <= 1 then q.gitDiff.None? else Cut(p.gitDiff, q.gitDiff, total)
    else if CountOption(p.lastCommand) > 1 then
      && Cut(p.lastCommand, q.lastCommand, total)
      && q == p.(lastCommand := q.lastCommand, notes := Upserted(p.notes, COMMAND, Count(q.lastCommand.value)))
    else
      && Cut(p.lastError, q.lastError, total)
      && q == p.(lastError := q.lastError, notes := Upserted(p.notes, ERROR, Count(q.lastError.value)))
  }

  /** There is one way to make it. */
  lemma CutStepIsUnique(p: Parts, q: Parts, r: Parts, total: int)
    requires CutStep(p, q, total) && CutStep(p, r, total)
    ensures q == r
  {
    if p.gitLog.None? && p.readme.None? && |p.mainFiles| <= 1 {
      if |p.mainFiles| == 1 && p.mainFiles[0].excerpt != "" {
        if Count(p.mainFiles[0].excerpt) > 1 {
          SameCut(Some(p.mainFiles[0].excerpt), Some(q.mainFiles[0].excerpt), Some(r.mainFiles[0].excerpt), total);
          assert q.mainFiles[0] == r.mainFiles[0];
        }
      } else if p.gitDiff.Some? {
        if CountOption(p.gitDiff) > 1 { SameCut(p.gitDiff, q.gitDiff, r.gitDiff, total); }
      } else if CountOption(p.lastCommand) > 1 {
        SameCut(p.lastCommand, q.lastCommand, r.lastCommand, total);
      } else {
        SameCut(p.lastError, q.lastError, r.lastError, total);
      }
    }
  }

  lemma SameCut(was: Option<string>, now: Option<string>, other: Option<string>, total: int)
    requires Cut(was, now, total) && Cut(was, other, total)
    ensures now == other
  {
    CutIsUnique(was.value, Left(Count(was.value), total), now.value, other.value);
  }

  /** What the parts count. */
  function Weight(p: Parts): nat {
    CountOption(p.gitLog) + CountOption(p.readme) + CountFiles(p.mainFiles) + CountOption(p.gitDiff)
    + CountOption(p.lastCommand) + CountOption(p.lastError) + CountNotes(p.notes)
  }

  lemma OneFile(file: MainFile)
    ensures CountFiles([file]) == Count(file.path) + Count(file.excerpt)
  {
    assert [file][..0] == [];
  }

  /** An excerpt that keeps more than one token leaves exactly 4000. */
  lemma ExcerptFillsTheLimit(p: Parts, q: Parts, base: nat)
    requires base + Weight(p) > 4000 && CutStep(p, q, base + Weight(p))
    requires |p.mainFiles| == |q.mainFiles| == 1 && Count(p.mainFiles[0].excerpt) > Count(q.mainFiles[0].excerpt) > 1
    ensures base + Weight(q) == 4000
  {
    OneFile(p.mainFiles[0]);
    OneFile(q.mainFiles[0]);
    assert q.mainFiles == [q.mainFiles[0]] && p.mainFiles == [p.mainFiles[0]];
  }

  lemma DiffFillsTheLimit(p: Parts, q: Parts, base: nat)
    requires base + Weight(p) > 4000 && CutStep(p, q, base + Weight(p))
    requires CountOption(p.gitDiff) > CountOption(q.gitDiff) > 1
    ensures base + Weight(q) == 4000
  {
  }

  /** A last command or a last error leaves exactly 4000, but for the note about it. */
  lemma SessionFillsTheLimit(p: Parts, q: Parts, base: nat)
    requires base + Weight(p) > 4000 && CutStep(p, q, base + Weight(p))
    requires CountOption(p.lastCommand) > CountOption(q.lastCommand) > 1
             || CountOption(p.lastError) > CountOption(q.lastError) > 1
    ensures base + Weight(q) == 4000 + CountNotes(q.notes) - CountNotes(p.notes)
  {
  }

  /** The turns of a compression: nothing is cut from a context of at most 4000 tokens. */
  ghost predicate AreTurns(turns: seq<Parts>, base: nat, was: Parts, now: Parts) {
    && turns != [] && turns[0] == was && turns[|turns| - 1] == now
    && forall i | 0 <= i < |turns| - 1 ::
         base + Weight(turns[i]) > 4000 && !AtFloor(turns[i])
         && CutStep(turns[i], turns[i + 1], base + Weight(turns[i]))
  }

  lemma OneMoreTurn(turns: seq<Parts>, base: nat, was: Parts, p: Parts, q: Parts)
    requires AreTurns(turns, base, was, p) && base + Weight(p) > 4000 && !AtFloor(p)
    requires CutStep(p, q, base + Weight(p))
    ensures AreTurns(turns + [q], base, was, q)
  {
  }

  /** The turns so far, and what they have come to. */
  ghost predicate Going(turns: seq<Parts>, base: nat, was: Parts, now: Parts, partial: bool) {
    AreTurns(turns, base, was, now) && Progress(was, now, partial)
  }

  lemma GoesOn(turns: seq<Parts>, base: nat, was: Parts, p: Parts, q: Parts, partial: bool)
    requires Going(turns, base, was, p, partial) && base + Weight(p) > 4000 && !AtFloor(p)
    requires CutStep(p, q, base + Weight(p))
    ensures Going(turns + [q], base, was, q, true) && Rank(q) < Rank(p)
  {
    CutIsProgress(was, p, q, partial, base + Weight(p));
    OneMoreTurn(turns, base, was, p, q);
  }

  ghost predicate CompressesTo(base: nat, was: Parts, now: Parts) {
    exists turns :: AreTurns(turns, base, was, now)
  }

  lemma GoneFar(turns: seq<Parts>, base: nat, was: Parts, now: Parts, partial: bool)
    requires Going(turns, base, was, now, partial)
    ensures CompressesTo(base, was, now) && Compressed(was, now)
    ensures (partial <==> now != was) && (partial ==> !AtFloor(was) && base + Weight(was) > 4000)
  {
    ProgressMeans(was, now, partial);
    if now != was { assert |turns| > 1; }
  }

  lemma FirstTurn(turns: seq<Parts>, base: nat, was: Parts, now: Parts)
    requires AreTurns(turns, base, was, now) && |turns| > 1
    ensures CutStep(was, turns[1], base + Weight(was)) && AreTurns(turns[1..], base, turns[1], now)
  {
    var rest := turns[1..];
    forall i | 0 <= i < |rest| - 1
      ensures base + Weight(rest[i]) > 4000 && !AtFloor(rest[i])
      ensures CutStep(rest[i], rest[i + 1], base + Weight(rest[i]))
    {
      assert rest[i] == turns[i + 1] && rest[i + 1] == turns[i + 2];
    }
  }

  /** A context has one compression: the turns that stop at the limit or at the floor are the same. */
  lemma {:induction false} CompressionIsUnique(base: nat, was: Parts, turns: seq<Parts>, now: Parts,
                                               others: seq<Parts>, other: Parts)
    requires AreTurns(turns, base, was, now) && AreTurns(others, base, was, other)
    requires (base + Weight(now) <= 4000 || AtFloor(now)) && (base + Weight(other) <= 4000 || AtFloor(other))
    ensures now == other
    decreases |turns|
  {
    if |turns| > 1 && |others| > 1 {
      FirstTurn(turns, base, was, now);
      FirstTurn(others, base, was, other);
      CutStepIsUnique(was, turns[1], others[1], base + Weight(was));
      CompressionIsUnique(base, turns[1], turns[1..], now, others[1..], other);
    }
  }

  /** What is left to cut. Notes are not counted: they grow while the rest shrinks. */
  function Rank(p: Parts): nat {
    (if p.gitLog.Some? then 1 else 0) + (if p.readme.Some? then 1 else 0)
    + |p.mainFiles| + (if p.mainFiles == [] then 0 else Count(p.mainFiles[0].excerpt))
    + (if p.gitDiff.Some? then 1 else 0) + CountOption(p.gitDiff)
    + CountOption(p.lastCommand) + CountOption(p.lastError)
  }

  lemma CutLowersRank(p: Parts, q: Parts, total: int)
    requires CutStep(p, q, total)
    ensures Rank(q) < Rank(p)
  {
  }

  lemma CutKeepsOrder(was: Parts, p: Parts, q: Parts, total: int)
    requires InOrder(was, p) && CutStep(p, q, total)
    ensures InOrder(was, q)
  {
  }

  lemma CommandCutKeepsNotes(was: Parts, p: Parts, kept: Option<string>, total: int)
    requires NotesTell(was, p) && Shortened(p.lastCommand, was.lastCommand) && Cut(p.lastCommand, kept, total)
    ensures NotesTell(was, p.(lastCommand := kept, notes := Upserted(p.notes, COMMAND, Count(kept.value))))
  {
    LabelsAreApart();
    UpsertLeavesOne(p.notes, COMMAND, ERROR, Count(kept.value));
  }

  lemma ErrorCutKeepsNotes(was: Parts, p: Parts, kept: Option<string>, total: int)
    requires NotesTell(was, p) && Shortened(p.lastError, was.lastError) && Cut(p.lastError, kept, total)
    ensures NotesTell(was, p.(lastError := kept, notes := Upserted(p.notes, ERROR, Count(kept.value))))
  {
    LabelsAreApart();
    UpsertLeavesOne(p.notes, ERROR, COMMAND, Count(kept.value));
    WithoutCommutes(p.notes, COMMAND, ERROR);
    WithoutCommutes(Upserted(p.notes, ERROR, Count(kept.value)), COMMAND, ERROR);
  }

  lemma CutKeepsNotes(was: Parts, p: Parts, q: Parts, total: int)
    requires InOrder(was, p) && NotesTell(was, p) && CutStep(p, q, total)
    ensures NotesTell(was, q)
  {
    if q.lastCommand != p.lastCommand {
      CommandCutKeepsNotes(was, p, q.lastCommand, total);
    } else if q.lastError != p.lastError {
      ErrorCutKeepsNotes(was, p, q.lastError, total);
    }
  }

  /** How far compression has come, and whether it has cut anything. */
  predicate Progress(was: Parts, now: Parts, partial: bool) {
    && Compressed(was, now)
    && (if partial then Rank(now) < Rank(was) && !AtFloor(was) else now == was)
  }

  lemma NothingCutYet(was: Parts)
    ensures Progress(was, was, false)
  {
  }

  lemma CutIsProgress(was: Parts, p: Parts, q: Parts, partial: bool, total: int)
    requires Progress(was, p, partial) && !AtFloor(p) && CutStep(p, q, total)
    ensures Progress(was, q, true) && Rank(q) < Rank(p)
  {
    CutKeeps(was, p, q, total);
  }

  lemma ProgressMeans(was: Parts, now: Parts, partial: bool)
    requires Progress(was, now, partial)
    ensures Compressed(was, now) && (partial <==> now != was) && (partial ==> !AtFloor(was))
  {
  }

  lemma CutKeeps(was: Parts, p: Parts, q: Parts, total: int)
    requires Compressed(was, p) && CutStep(p, q, total)
    ensures Compressed(was, q) && Rank(q) < Rank(p)
  {
    CutLowersRank(p, q, total);
    CutKeepsOrder(was, p, q, total);
    CutKeepsNotes(was, p, q, total);
  }

  class TaskContext {
    const path: string
    const branch: Option<string>
    const os: string
    const toolResults: seq<ToolResult>
    var mainFiles: seq<MainFile>
    var readme: Option<string>
    var gitDiff: Option<string>
    var gitLog: Option<string>
    var lastCommand: Option<string>
    var lastError: Option<string>
    var notes: seq<string>

    constructor (path: string, branch: Option<string>, os: string, toolResults: seq<ToolResult>)
      ensures this.path == path && this.branch == branch && this.os == os && this.toolResults == toolResults
    {
      this.path, this.branch, this.os, this.toolResults := path, branch, os, toolResults;
    }

    function Total(): nat
      reads this
    {
      Count(path) + CountOption(branch) + CountOption(readme) + CountOption(gitDiff) + CountOption(gitLog)
      + CountOption(lastCommand) + CountOption(lastError) + Count(os) + CountFiles(mainFiles)
      + CountResults(toolResults) + CountNotes(notes)
    }

    /** What is never cut: the path, the branch, the operating system and the tool results. */
    function Base(): nat {
      Count(path) + CountOption(branch) + Count(os) + CountResults(toolResults)
    }

    /** Every text that is counted. */
    function Texts(): seq<string>
      reads this
    {
      [path] + OptionalTexts() + [os] + FileTexts(mainFiles) + ResultTexts(toolResults) + notes
    }

    function OptionalTexts(): seq<string>
      reads this
    {
      (OptionText(branch) + OptionText(readme) + OptionText(gitDiff))
      + (OptionText(gitLog) + OptionText(lastCommand) + OptionText(lastError))
    }

    /** The total is the number of tokens of all the texts put together. */
    lemma TotalCountsTexts()
      ensures Total() == Count(Joined(Texts()))
    {
      JoinedOptions(branch, readme, gitDiff);
      JoinedOptions(gitLog, lastCommand, lastError);
      JoinedConcat(OptionText(branch) + OptionText(readme) + OptionText(gitDiff),
                   OptionText(gitLog) + OptionText(lastCommand) + OptionText(lastError));
      JoinedOption(Some(path));
      JoinedOption(Some(os));
      JoinedFiles(mainFiles);
      JoinedResults(toolResults);
      JoinedNotes(notes);
      JoinedSix([path], OptionalTexts(), [os], FileTexts(mainFiles), ResultTexts(toolResults), notes);
    }

    static lemma JoinedSix(a: seq<string>, b: seq<string>, c: seq<string>, d: seq<string>, e: seq<string>,
                           f: seq<string>)
      ensures Count(Joined(a + b + c + d + e + f))
              == Count(Joined(a)) + Count(Joined(b)) + Count(Joined(c)) + Count(Joined(d)) + Count(Joined(e))
                 + Count(Joined(f))
    {
      JoinedConcat(a, b);
      JoinedConcat(a + b, c);
      JoinedConcat(a + b + c, d);
      JoinedConcat(a + b + c + d, e);
      JoinedConcat(a + b + c + d + e, f);
    }

    static lemma JoinedOptions(a: Option<string>, b: Option<string>, c: Option<string>)
      ensures Count(Joined(OptionText(a) + OptionText(b) + OptionText(c)))
              == CountOption(a) + CountOption(b) + CountOption(c)
    {
      JoinedOption(a);
      JoinedOption(b);
      JoinedOption(c);
      JoinedConcat(OptionText(a), OptionText(b));
      JoinedConcat(OptionText(a) + OptionText(b), OptionText(c));
    }

    function View(): Parts
      reads this
    {
      Parts(gitLog, readme, mainFiles, gitDiff, lastCommand, lastError, notes)
    }

    method TotalTokenCount() returns (total: nat)
      ensures total == Total() == Base() + Weight(View())
      ensures total == Count(Joined(Texts()))
    {
      TotalCountsTexts();
      total := Count(path);
      total := total + CountOption(branch) + CountOption(readme) + CountOption(gitDiff) + CountOption(gitLog);
      total := total + CountOption(lastCommand) + CountOption(lastError) + Count(os);
      ghost var before := total;
      for i := 0 to |mainFiles|
        invariant total == before + CountFiles(mainFiles[..i])
      {
        assert mainFiles[..i + 1][..i] == mainFiles[..i];
        total := total + Count(mainFiles[i].path);
        total := total + Count(mainFiles[i].excerpt);
      }
      assert mainFiles[..|mainFiles|] == mainFiles;
      before := total;
      for i := 0 to |toolResults|
        invariant total == before + CountResults(toolResults[..i])
      {
        assert toolResults[..i + 1][..i] == toolResults[..i];
        var result := toolResults[i];
        if !result.ok {
          continue;
        }
        total := total + Count(result.toolName);
        if Trim(result.summary) != "" {
          total := total + Count(result.summary);
          continue;
        }
        total := total + Count(result.raw);
      }
      assert toolResults[..|toolResults|] == toolResults;
      before := total;
      for i := 0 to |notes|
        invariant total == before + CountNotes(notes[..i])
      {
        assert notes[..i + 1][..i] == notes[..i];
        total := total + Count(notes[i]);
      }
      assert notes[..|notes|] == notes;
    }

    method TotalWithout(text: string) returns (total: int)
      ensures total == Total() - Count(text)
    {
      var all: int := TotalTokenCount();
      var own: int := ApproxTokens(text);
      total := all - own;
    }

    /** A cut never empties a text, and it takes at least one token. */
    method ShrinkField(field: Option<string>, allowed: int) returns (shorter: Option<string>, changed: bool)
      ensures changed <==> CountOption(field) > Limit(allowed)
      ensures !changed ==> shorter == field
      ensures changed ==> shorter.Some? && IsCut(field.value, allowed, shorter.value)
    {
      if field.None? {
        return field, false;
      }
      var kept;
      kept, changed := TruncateToTokens(field.value, allowed);
      shorter := if changed then Some(kept) else field;
    }

    method ShrinkMainFile() returns (changed: bool)
      requires |mainFiles| == 1 && Total() > MAX_CONTEXT_TOKENS
      modifies this`mainFiles
      ensures changed <==> Count(old(mainFiles)[0].excerpt) > 1
      ensures !changed ==> mainFiles == old(mainFiles)
      ensures changed ==>
                && |mainFiles| == 1 && mainFiles[0].path == old(mainFiles)[0].path
                && Cut(Some(old(mainFiles)[0].excerpt), Some(mainFiles[0].excerpt), old(Total()))
    {
      var current := ApproxTokens(mainFiles[0].excerpt);
      if current <= 1 {
        return false;
      }
      var others := TotalWithout(mainFiles[0].excerpt);
      var allowed := MAX_CONTEXT_TOKENS - others;
      if allowed < 1 {
        allowed := 1;
      }
      var truncated;
      truncated, changed := TruncateToTokens(mainFiles[0].excerpt, allowed);
      if !changed {
        return false;
      }
      mainFiles := [mainFiles[0].(excerpt := truncated)];
      return true;
    }

    /** One turn of the loop, on a context over the limit. */
    method CutOnce() returns (cut: bool)
      requires Total() > MAX_CONTEXT_TOKENS
      modifies this`gitLog, this`readme, this`mainFiles, this`gitDiff, this`lastCommand, this`lastError, this`notes
      ensures cut <==> !AtFloor(old(View()))
      ensures if cut then CutStep(old(View()), View(), old(Total())) else View() == old(View())
    {
      if gitLog.Some? {
        gitLog := None;
      } else if readme.Some? {
        readme := None;
      } else if |mainFiles| > 1 {
        mainFiles := mainFiles[..|mainFiles| - 1];
      } else if |mainFiles| == 1 && mainFiles[0].excerpt != "" {
        var shrunk := ShrinkMainFile();
        if !shrunk {
          mainFiles := [];
        }
      } else if gitDiff.Some? {
        var others := TotalWithout(gitDiff.value);
        var shorter, shrunk := ShrinkField(gitDiff, MAX_CONTEXT_TOKENS - others);
        gitDiff := if shrunk then shorter else None;
      } else {
        cut := CutSession();
        return cut;
      }
      return true;
    }

    method CutSession() returns (cut: bool)
      requires Total() > MAX_CONTEXT_TOKENS
      requires gitLog.None? && readme.None? && ExcerptsGone(mainFiles) && gitDiff.None?
      modifies this`lastCommand, this`lastError, this`notes
      ensures cut <==> !AtFloor(old(View()))
      ensures if cut then CutStep(old(View()), View(), old(Total())) else View() == old(View())
    {
      if lastCommand.Some? && Count(lastCommand.value) > 1 {
        var others := TotalWithout(lastCommand.value);
        var allowed := MAX_CONTEXT_TOKENS - others;
        if allowed < 1 {
          allowed := 1;
        }
        lastCommand, cut := ShrinkField(lastCommand, allowed);
        if cut {
          notes := UpsertFieldNote(notes, COMMAND, allowed);
        }
      } else if lastError.Some? {
        var others := TotalWithout(lastError.value);
        var allowed := MAX_CONTEXT_TOKENS - others;
        if allowed < 1 {
          allowed := 1;
        }
        lastError, cut := ShrinkField(lastError, allowed);
        if cut {
          notes := UpsertFieldNote(notes, ERROR, allowed);
        }
      } else {
        return false;
      }
    }

    /** A turn, and the history of those before it. */
    method Turn(ghost turns: seq<Parts>, ghost was: Parts, ghost partial: bool) returns (cut: bool)
      requires Total() > MAX_CONTEXT_TOKENS && Total() == Base() + Weight(View())
      requires Going(turns, Base(), was, View(), partial)
      modifies this`gitLog, this`readme, this`mainFiles, this`gitDiff, this`lastCommand, this`lastError, this`notes
      ensures cut ==> Going(turns + [View()], Base(), was, View(), true) && Rank(View()) < old(Rank(View()))
      ensures !cut ==> View() == old(View()) && AtFloor(View())
    {
      ghost var now := View();
      cut := CutOnce();
      if cut {
        GoesOn(turns, Base(), was, now, View(), partial);
      }
    }

    /** Ends for every context; what is over the limit afterwards has nothing left to cut. */
    method Compress() returns (partial: bool)
      modifies this`gitLog, this`readme, this`mainFiles, this`gitDiff, this`lastCommand, this`lastError, this`notes
      ensures Total() <= 4000 || AtFloor(View())
      ensures Compressed(old(View()), View())
      ensures CompressesTo(Base(), old(View()), View())
      ensures partial <==> old(Total()) > 4000 && !AtFloor(old(View()))
      ensures partial <==> View() != old(View())
    {
      partial := false;
      ghost var was, base := View(), Base();
      NothingCutYet(was);
      var total := TotalTokenCount();
      ghost var turns := [was];
      while total > MAX_CONTEXT_TOKENS
        invariant base == Base() && total == Total() == base + Weight(View())
        invariant Going(turns, base, was, View(), partial)
        decreases Rank(View())
      {
        var cut := Turn(turns, was, partial);
        if !cut {
          break;
        }
        turns := turns + [View()];
        partial := true;
        total := TotalTokenCount();
      }
      GoneFar(turns, base, was, View(), partial);
    }
  }
}
