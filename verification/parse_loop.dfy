/** The parse-only loop of the multi-writer generator: each continuation is
    split into responses; the first kept one becomes the whole next prompt,
    and its sender and message text are worked out. Nothing is published.
    A kept response in which the sender search finds nothing ends the
    program with AttributeError.
    The continuations the text model would produce are an input sequence,
    and the end of that sequence stands for the keyboard interrupt that
    ends the loop. */
module ParseOnly {
  import opened Wrappers
  import opened Text
  import opened Parser

  /** One accepted response: the fragment that becomes the next prompt, its
      lower-cased sender and its message text. */
  datatype Turn = Turn(fragment: string, sender: string, text: string)

  /** A turn as the loop accepts it: its fragment holds a delimiter, the
      sender is the first one named there, lower-cased, and the text is the
      fragment with every delimiter removed and spaces stripped. */
  predicate Accepted(g: Grammar, t: Turn) {
    && HasDelimiter(g, t.fragment)
    && FirstSender(g, t.fragment) == Some(t.sender)
    && t.text == MessageText(g, t.fragment)
  }

  /** What one pass of the loop makes of a continuation: nothing, an
      accepted turn, or the end of the program because the sender search
      found nothing in the response that became the prompt. */
  datatype Pass = Skipped | Took(turn: Turn) | Crashed(fragment: string)

  /** One pass over the continuation `generated` of `prompt`, with the
      filter as written: nothing when no response is kept, else the first
      kept one. */
  function ParseTurn(g: Grammar, prompt: string, generated: string): (r: Pass)
    ensures r.Took? ==> Accepted(g, r.turn)
    ensures r.Crashed? ==> !HasDelimiter(g, r.fragment)
  {
    var responses := Responses(g, RemoveAll(generated, prompt));
    if responses == [] then Skipped
    else
      var f := responses[0];
      match FirstSender(g, f)
      case None => Crashed(f)
      case Some(sender) => Took(Turn(f, sender, MessageText(g, f)))
  }

  /** Nothing is taken exactly when no response is kept; otherwise the
      first kept response, which is the first fragment of the continuation
      holding a delimiter with its spaces stripped, is taken whole with its
      sender and text, or ends the program exactly when the stripping has
      left it without a delimiter. */
  lemma ParseTurnSpec(g: Grammar, prompt: string, generated: string)
    ensures var r := ParseTurn(g, prompt, generated);
      var fragments := Fragments(g, RemoveAll(generated, prompt));
      var responses := Responses(g, RemoveAll(generated, prompt));
      && (r.Skipped? <==> forall k :: 0 <= k < |fragments| ==> !HasDelimiter(g, fragments[k]))
      && (responses != [] ==>
            exists k :: 0 <= k < |fragments| && HasDelimiter(g, fragments[k])
              && (forall j :: 0 <= j < k ==> !HasDelimiter(g, fragments[j]))
              && responses[0] == StripBlanks(fragments[k]))
      && (r.Crashed? <==> responses != [] && !HasDelimiter(g, responses[0]))
      && (r.Crashed? ==> r.fragment == responses[0])
      && (r.Took? ==> r.turn.fragment == responses[0])
  {
    KeptAsWrittenFirst(g, Fragments(g, RemoveAll(generated, prompt)));
  }

  /** One pass with the filter evidently intended: the fragments are
      stripped before they are filtered, so every kept response names a
      sender. */
  function IntendedParseTurn(g: Grammar, prompt: string, generated: string): Pass {
    var responses := IntendedResponses(g, RemoveAll(generated, prompt));
    if responses == [] then Skipped
    else
      IntendedResponsesHaveSender(g, RemoveAll(generated, prompt));
      assert responses[0] in responses;
      var f := responses[0];
      Took(Turn(f, FirstSender(g, f).value, MessageText(g, f)))
  }

  /** The intended pass never ends the program: it takes nothing exactly
      when no response is kept, and otherwise takes the first one whole. */
  lemma IntendedParseTurnSpec(g: Grammar, prompt: string, generated: string)
    ensures var r := IntendedParseTurn(g, prompt, generated);
      var responses := IntendedResponses(g, RemoveAll(generated, prompt));
      && !r.Crashed?
      && (r.Skipped? <==> responses == [])
      && (r.Took? ==> r.turn.fragment == responses[0] && Accepted(g, r.turn))
  {
    var responses := IntendedResponses(g, RemoveAll(generated, prompt));
    if responses != [] {
      IntendedResponsesHaveSender(g, RemoveAll(generated, prompt));
      assert responses[0] in responses;
    }
  }

  /** The pass as written, as a value, so that the loop below can be
      stated for any way of parsing one continuation. */
  function Parse(g: Grammar): (string, string) -> Pass {
    (prompt, generated) => ParseTurn(g, prompt, generated)
  }

  /** The intended pass, as a value. */
  function IntendedParse(g: Grammar): (string, string) -> Pass {
    (prompt, generated) => IntendedParseTurn(g, prompt, generated)
  }

  /** Every turn that either pass takes is accepted, and the intended pass
      never ends the program. */
  lemma ParseAccepted(g: Grammar)
    ensures forall prompt, generated :: Parse(g)(prompt, generated).Took? ==> Accepted(g, Parse(g)(prompt, generated).turn)
    ensures forall prompt, generated :: IntendedParse(g)(prompt, generated).Took? ==> Accepted(g, IntendedParse(g)(prompt, generated).turn)
    ensures forall prompt, generated :: !IntendedParse(g)(prompt, generated).Crashed?
  {
    forall prompt, generated
      ensures Parse(g)(prompt, generated).Took? ==> Accepted(g, Parse(g)(prompt, generated).turn)
      ensures IntendedParse(g)(prompt, generated).Took? ==> Accepted(g, IntendedParse(g)(prompt, generated).turn)
      ensures !IntendedParse(g)(prompt, generated).Crashed?
    {
      ParseTurnSpec(g, prompt, generated);
      IntendedParseTurnSpec(g, prompt, generated);
    }
  }

  /** The loop over the continuations from position `i` on: the final
      prompt, the turns accepted on the way, and whether the program ended
      with AttributeError. Each continuation is parsed against the prompt of
      its own pass; a response that ends the program has already become the
      prompt. */
  function Run(parse: (string, string) -> Pass, prompt: string, outputs: seq<string>, i: nat): (string, seq<Turn>, bool)
    requires i <= |outputs|
    decreases |outputs| - i
  {
    if i == |outputs| then (prompt, [], false)
    else match parse(prompt, outputs[i])
      case Skipped => Run(parse, prompt, outputs, i + 1)
      case Crashed(f) => (f, [], true)
      case Took(t) =>
        var rest := Run(parse, t.fragment, outputs, i + 1);
        (rest.0, [t] + rest.1, rest.2)
  }

  /** At most one turn per continuation, and each one has the property
      `ok` when every turn a pass takes has it. */
  lemma {:induction false} RunTurns(ok: Turn -> bool, parse: (string, string) -> Pass, prompt: string, outputs: seq<string>, i: nat)
    requires i <= |outputs|
    requires forall p, o :: parse(p, o).Took? ==> ok(parse(p, o).turn)
    ensures |Run(parse, prompt, outputs, i).1| <= |outputs| - i
    ensures forall k :: 0 <= k < |Run(parse, prompt, outputs, i).1| ==> ok(Run(parse, prompt, outputs, i).1[k])
    decreases |outputs| - i
  {
    if i < |outputs| {
      match parse(prompt, outputs[i])
      case Skipped =>
        RunTurns(ok, parse, prompt, outputs, i + 1);
      case Crashed(f) =>
      case Took(t) =>
        RunTurns(ok, parse, t.fragment, outputs, i + 1);
    }
  }

  /** A pass that never ends the program gives a loop that never does. */
  lemma {:induction false} RunNeverCrashes(parse: (string, string) -> Pass, prompt: string, outputs: seq<string>, i: nat)
    requires i <= |outputs|
    requires forall p, o :: !parse(p, o).Crashed?
    ensures !Run(parse, prompt, outputs, i).2
    decreases |outputs| - i
  {
    if i < |outputs| {
      match parse(prompt, outputs[i])
      case Skipped =>
        RunNeverCrashes(parse, prompt, outputs, i + 1);
      case Took(t) =>
        RunNeverCrashes(parse, t.fragment, outputs, i + 1);
    }
  }

  /** When the loop runs to the end, the prompt ends as the last accepted
      fragment, or unchanged when nothing was accepted. */
  lemma {:induction false} RunPrompt(parse: (string, string) -> Pass, prompt: string, outputs: seq<string>, i: nat)
    requires i <= |outputs|
    ensures var r := Run(parse, prompt, outputs, i);
      !r.2 ==> r.0 == if r.1 == [] then prompt else r.1[|r.1| - 1].fragment
    decreases |outputs| - i
  {
    if i < |outputs| {
      match parse(prompt, outputs[i])
      case Skipped =>
        RunPrompt(parse, prompt, outputs, i + 1);
      case Crashed(f) =>
      case Took(t) =>
        RunPrompt(parse, t.fragment, outputs, i + 1);
        var rest := Run(parse, t.fragment, outputs, i + 1);
        if rest.1 != [] {
          assert ([t] + rest.1)[|rest.1|] == rest.1[|rest.1| - 1];
        }
    }
  }

  /** The loop, for any way of parsing one continuation: each continuation
      is parsed against the current prompt, an accepted turn replaces the
      prompt with its fragment, and a response without a sender ends it. */
  method Loop(parse: (string, string) -> Pass, prompt0: string, outputs: seq<string>) returns (prompt: string, turns: seq<Turn>, crashed: bool)
    ensures (prompt, turns, crashed) == Run(parse, prompt0, outputs, 0)
  {
    prompt := prompt0;
    turns := [];
    crashed := false;
    var i := 0;
    assert turns + Run(parse, prompt, outputs, 0).1 == Run(parse, prompt, outputs, 0).1;
    while i < |outputs| && !crashed
      invariant i <= |outputs|
      invariant !crashed ==> Run(parse, prompt0, outputs, 0) == (Run(parse, prompt, outputs, i).0, turns + Run(parse, prompt, outputs, i).1, Run(parse, prompt, outputs, i).2)
      invariant crashed ==> Run(parse, prompt0, outputs, 0) == (prompt, turns, true)
      decreases |outputs| - i
    {
      var parsed := parse(prompt, outputs[i]);
      match parsed {
        case Skipped =>
        case Crashed(f) =>
          assert turns + [] == turns;
          prompt := f;
          crashed := true;
        case Took(t) =>
          ghost var rest := Run(parse, t.fragment, outputs, i + 1).1;
          assert turns + ([t] + rest) == (turns + [t]) + rest;
          prompt := t.fragment;
          turns := turns + [t];
      }
      i := i + 1;
    }
    if !crashed {
      assert turns + [] == turns;
    }
  }

  /** The parse-only loop as written: the prompt gets a newline once, then
      each continuation goes through `ParseTurn`. */
  method ParseLoop(g: Grammar, prompt0: string, outputs: seq<string>) returns (prompt: string, turns: seq<Turn>, crashed: bool)
    ensures (prompt, turns, crashed) == Run(Parse(g), prompt0 + "\n", outputs, 0)
  {
    prompt, turns, crashed := Loop(Parse(g), prompt0 + "\n", outputs);
  }

  /** The parse-only loop with the intended filter. */
  method IntendedParseLoop(g: Grammar, prompt0: string, outputs: seq<string>) returns (prompt: string, turns: seq<Turn>, crashed: bool)
    ensures (prompt, turns, crashed) == Run(IntendedParse(g), prompt0 + "\n", outputs, 0)
  {
    prompt, turns, crashed := Loop(IntendedParse(g), prompt0 + "\n", outputs);
  }

  /** What a run of the loop from `prompt` promises: at most one turn per
      continuation, every turn names its sender and carries its text, and a
      run to the end leaves the prompt as the last turn's fragment, or
      unchanged when there was none. */
  predicate Promised(g: Grammar, prompt: string, outputs: seq<string>, r: (string, seq<Turn>, bool)) {
    && |r.1| <= |outputs|
    && (forall k :: 0 <= k < |r.1| ==> Accepted(g, r.1[k]))
    && (!r.2 && r.1 == [] ==> r.0 == prompt)
    && (!r.2 && r.1 != [] ==> r.0 == r.1[|r.1| - 1].fragment)
  }

  /** The loop as written keeps what it promises, up to the point where it
      ends the program. */
  lemma ParseLoopSpec(g: Grammar, prompt0: string, outputs: seq<string>)
    ensures Promised(g, prompt0 + "\n", outputs, Run(Parse(g), prompt0 + "\n", outputs, 0))
  {
    ParseAccepted(g);
    RunTurns(t => Accepted(g, t), Parse(g), prompt0 + "\n", outputs, 0);
    RunPrompt(Parse(g), prompt0 + "\n", outputs, 0);
  }

  /** The intended loop keeps the same promises and always runs to the end. */
  lemma IntendedParseLoopSpec(g: Grammar, prompt0: string, outputs: seq<string>)
    ensures Promised(g, prompt0 + "\n", outputs, Run(IntendedParse(g), prompt0 + "\n", outputs, 0))
    ensures !Run(IntendedParse(g), prompt0 + "\n", outputs, 0).2
  {
    ParseAccepted(g);
    RunTurns(t => Accepted(g, t), IntendedParse(g), prompt0 + "\n", outputs, 0);
    RunPrompt(IntendedParse(g), prompt0 + "\n", outputs, 0);
    RunNeverCrashes(IntendedParse(g), prompt0 + "\n", outputs, 0);
  }

  /** A prompt that ends in a newline never occurs in `[B] `. */
  lemma NotInTrailingDelimiter(prompt: string)
    requires |prompt| > 0 && prompt[|prompt| - 1] == '\n'
    ensures RemoveAll("[B] ", prompt) == "[B] "
  {
    var s := "[B] ";
    forall j | 0 <= j ensures !OccursAt(s, prompt, j) {
      if j + |prompt| <= |s| {
        assert s[j..j + |prompt|][|prompt| - 1] == s[j + |prompt| - 1] != '\n';
      }
    }
    IndexOfSpec(s, prompt);
  }

  /** The discrepancy of the as-written filter, seen from the parse-only
      loop: with the template `[{role}] `, the single continuation `[B] `
      ends the program with AttributeError, where the intended loop takes
      nothing and keeps its prompt. */
  lemma ParseLoopCrashes(prompt0: string)
    ensures Run(Parse(Brackets), prompt0 + "\n", ["[B] "], 0) == ("[B]", [], true)
    ensures Run(IntendedParse(Brackets), prompt0 + "\n", ["[B] "], 0) == (prompt0 + "\n", [], false)
  {
    var p := prompt0 + "\n";
    NotInTrailingDelimiter(p);
    TrailingDelimiterLost();
    assert ParseTurn(Brackets, p, "[B] ") == Crashed("[B]");
    assert IntendedParseTurn(Brackets, p, "[B] ") == Skipped;
  }
}
