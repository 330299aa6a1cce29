/**
The prompt sent to a model (buildPrompt in internal/backend/backend.go): a system section, a context
section and a user section, cut in three stages so that the whole stays within 4000 tokens.
*/
module Prompts {
  import opened Tokens

  const MAX_CONTEXT_TOKENS := 4000

  const DEFAULT_SYSTEM_PROMPT :=
    "Voc\U{EA} \U{E9} o assistente t\U{E9}cnico do PocketCli. "
    + "Responda com foco operacional, objetividade e passos concretos."

  /** What is rendered as the user section; an empty input and an empty system prompt have stand-ins. */
  function UserBody(input: string): string {
    if Trim(input) == "" then "(sem user_input)" else Trim(input)
  }

  function SystemBody(prompt: string): string {
    if Trim(prompt) == "" then DEFAULT_SYSTEM_PROMPT else Trim(prompt)
  }

  function RenderSection(title: string, body: string): string {
    var trimmed := Trim(body);
    "[" + title + "]\n" + if trimmed == "" then "(vazio)" else trimmed
  }

  function Join(system: string, context: string, user: string): string {
    system + "\n\n" + context + "\n\n" + user
  }

  lemma CountWithBreak(a: string, b: string, c: string)
    requires b != [] && (forall i | 0 <= i < |b| :: IsSpace(b[i]))
    ensures Count(a + b + c) == Count(a) + Count(c)
  {
    OnlySpaces(b);
    CountConcat(a, b);
    CountConcat(a + b, c);
  }

  lemma CountOfJoin(system: string, context: string, user: string)
    ensures Count(Join(system, context, user)) == Count(system) + Count(context) + Count(user)
  {
    CountWithBreak(system, "\n\n", context);
    CountWithBreak(system + "\n\n" + context, "\n\n", user);
  }

  lemma NotOnlySpaces(s: string, i: nat)
    requires i < |s| && !IsSpace(s[i])
    ensures Count(s) > 0
  {
    OnlySpaces(s);
  }

  /** A section always has its title and at least one token of body. */
  lemma SectionHasTwoTokens(title: string, body: string)
    ensures Count(RenderSection(title, body)) >= 2
  {
    var trimmed := Trim(body);
    var shown := if trimmed == "" then "(vazio)" else trimmed;
    var head := "[" + title + "]";
    TrimKeepsTokens(body);
    TrimKeepsTokens(trimmed);
    if trimmed == "" { NotOnlySpaces("(vazio)", 0); }
    NotOnlySpaces(head, 0);
    CountWithBreak(head, "\n", shown);
    assert head + "\n" + shown == RenderSection(title, body);
  }

  /** A section is its title on a line and then its body, trimmed; a body without tokens has a stand-in. */
  ghost predicate Shows(section: string, title: string, body: string, standIn: string) {
    exists shown :: section == "[" + title + "]\n" + shown
                    && if Count(body) > 0 then IsTrimmed(shown, body) else shown == standIn
  }

  lemma SectionShows(title: string, body: string)
    ensures Shows(RenderSection(title, body), title, body, "(vazio)")
  {
    TrimKeepsTokens(body);
    var shown := if Trim(body) == "" then "(vazio)" else Trim(body);
    if Count(body) > 0 { TrimMeans(body); }
    assert RenderSection(title, body) == "[" + title + "]\n" + shown;
  }

  lemma TwiceTrimmedShows(title: string, body: string, standIn: string)
    requires Trim(standIn) == standIn != ""
    ensures var first := if Trim(body) == "" then standIn else Trim(body);
            Shows(RenderSection(title, first), title, body, standIn)
  {
    TrimKeepsTokens(body);
    var shown := if Trim(body) == "" then standIn else Trim(body);
    if Count(body) > 0 {
      TrimMeans(body);
      TrimOfTrimmed(Trim(body), body);
    }
    assert RenderSection(title, shown) == "[" + title + "]\n" + shown;
  }

  lemma TrimmedText(s: string)
    requires s != "" && !IsSpace(s[0]) && !IsSpace(s[|s| - 1])
    ensures Trim(s) == s
  {
  }

  /** The three whole sections of a prompt. */
  lemma SectionsShow(context: string, systemPrompt: string, userInput: string)
    ensures Shows(RenderSection("SYSTEM", SystemBody(systemPrompt)), "SYSTEM", systemPrompt,
                  "Voc\U{EA} \U{E9} o assistente t\U{E9}cnico do PocketCli. "
                  + "Responda com foco operacional, objetividade e passos concretos.")
    ensures Shows(RenderSection("CONTEXTO", context), "CONTEXTO", context, "(vazio)")
    ensures Shows(RenderSection("USER_INPUT", UserBody(userInput)), "USER_INPUT", userInput, "(sem user_input)")
  {
    TrimmedText(DEFAULT_SYSTEM_PROMPT);
    TrimmedText("(sem user_input)");
    TwiceTrimmedShows("SYSTEM", systemPrompt, DEFAULT_SYSTEM_PROMPT);
    SectionShows("CONTEXTO", context);
    TwiceTrimmedShows("USER_INPUT", userInput, "(sem user_input)");
  }

  function Min(a: nat, b: nat): nat {
    if a <= b then a else b
  }

  /** A section that is kept, or cut between two of its tokens. */
  predicate KeptOrCut(now: string, whole: string) {
    now <= whole && (now == whole || (now != [] && !IsSpace(now[|now| - 1]) && IsSpace(whole[|now|])))
  }

  /**
  What a prompt made of three whole sections is: each section is kept or cut between tokens, the prompt has all
  their tokens or exactly 4000, and a section is cut only when those that matter more leave it no room.
  */
  ghost predicate Fitted(prompt: string, wholeSystem: string, wholeSection: string, wholeUser: string,
                         system: string, section: string, user: string)
  {
    && prompt == system + "\n\n" + section + "\n\n" + user
    && KeptOrCut(system, wholeSystem) && KeptOrCut(section, wholeSection) && KeptOrCut(user, wholeUser)
    && Count(prompt) == Min(4000, Count(wholeSystem) + Count(wholeSection) + Count(wholeUser))
    && (section == wholeSection <==> Count(wholeSystem) + Count(wholeSection) + Count(wholeUser) <= 4000)
    && (user == wholeUser <==> Count(wholeSystem) + Count(wholeUser) < 4000)
    && (system == wholeSystem <==> Count(wholeSystem) < 3999)
  }

  ghost predicate Fits(prompt: string, wholeSystem: string, wholeSection: string, wholeUser: string) {
    exists system, section, user :: Fitted(prompt, wholeSystem, wholeSection, wholeUser, system, section, user)
  }

  /** One stage: cuts a section to what the other two leave, and to one token at least. */
  method FitSection(section: string, others: nat) returns (kept: string)
    requires Count(section) >= 2
    ensures KeptOrCut(kept, section)
    ensures others + Count(section) <= MAX_CONTEXT_TOKENS ==> kept == section
    ensures others + Count(section) > MAX_CONTEXT_TOKENS ==>
              kept != section && Count(kept) == if others < MAX_CONTEXT_TOKENS then MAX_CONTEXT_TOKENS - others else 1
  {
    var allowed := MAX_CONTEXT_TOKENS - others;
    if allowed < 1 {
      allowed := 1;
    }
    var changed;
    kept, changed := TruncateToTokens(section, allowed);
  }

  /** The three stages, from the section that matters least to the one that matters most. */
  method FitSections(wholeSystem: string, wholeSection: string, wholeUser: string)
    returns (prompt: string)
    requires Count(wholeSystem) >= 2 && Count(wholeSection) >= 2 && Count(wholeUser) >= 2
    ensures Fits(prompt, wholeSystem, wholeSection, wholeUser)
  {
    var systemTokens := ApproxTokens(wholeSystem);
    var userTokens := ApproxTokens(wholeUser);
    var contextSection := FitSection(wholeSection, systemTokens + userTokens);
    prompt := Join(wholeSystem, contextSection, wholeUser);
    CountOfJoin(wholeSystem, contextSection, wholeUser);
    var total := ApproxTokens(prompt);
    if total <= MAX_CONTEXT_TOKENS {
      assert Fitted(prompt, wholeSystem, wholeSection, wholeUser, wholeSystem, contextSection, wholeUser);
      return prompt;
    }

    var contextTokens := ApproxTokens(contextSection);
    var userSection := FitSection(wholeUser, systemTokens + contextTokens);
    prompt := Join(wholeSystem, contextSection, userSection);
    CountOfJoin(wholeSystem, contextSection, userSection);
    total := ApproxTokens(prompt);
    if total <= MAX_CONTEXT_TOKENS {
      assert Fitted(prompt, wholeSystem, wholeSection, wholeUser, wholeSystem, contextSection, userSection);
      return prompt;
    }

    userTokens := ApproxTokens(userSection);
    var systemSection := FitSection(wholeSystem, contextTokens + userTokens);
    prompt := Join(systemSection, contextSection, userSection);
    CountOfJoin(systemSection, contextSection, userSection);
    assert Fitted(prompt, wholeSystem, wholeSection, wholeUser, systemSection, contextSection, userSection);
  }

  /** `context` is the text of the context section before it gets its title. */
  method BuildPrompt(context: string, systemPrompt: string, userInput: string)
    returns (prompt: string)
    ensures Fits(prompt, RenderSection("SYSTEM", SystemBody(systemPrompt)), RenderSection("CONTEXTO", context),
                 RenderSection("USER_INPUT", UserBody(userInput)))
    ensures exists system, section, user ::
              && Fits(prompt, system, section, user) && Shows(section, "CONTEXTO", context, "(vazio)")
              && Shows(system, "SYSTEM", systemPrompt, DEFAULT_SYSTEM_PROMPT)
              && Shows(user, "USER_INPUT", userInput, "(sem user_input)")
  {
    SectionsShow(context, systemPrompt, userInput);
    var systemBody := Trim(systemPrompt);
    if systemBody == "" {
      systemBody := DEFAULT_SYSTEM_PROMPT;
    }
    var userBody := Trim(userInput);
    if userBody == "" {
      userBody := "(sem user_input)";
    }
    SectionHasTwoTokens("SYSTEM", systemBody);
    SectionHasTwoTokens("USER_INPUT", userBody);
    SectionHasTwoTokens("CONTEXTO", context);
    prompt := FitSections(RenderSection("SYSTEM", systemBody), RenderSection("CONTEXTO", context),
                          RenderSection("USER_INPUT", userBody));
  }
}
