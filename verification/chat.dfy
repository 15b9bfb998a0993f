/** The conversation loop of `generate_singlecore.py`: the setup in
    `generate` and its `while True` loop.

    A generated turn is not published at once: it waits in `last_message`
    until the next turn has been generated, because only then is it known
    who writes next. Everything random or external is an input (`Opening`
    for the setup, one `Draws` per iteration); the store is the event log of
    the `Store` module; the `Sounds` and `Prompts` objects are represented by
    their working copies, drawn from with `Pools.Pop`. */
module Chat {
  import opened Wrappers
  import opened Text
  import opened Numeric
  import opened Timing
  import opened Pools
  import opened Parser
  import opened Store

  /** The exceptions that end the program. */
  datatype Error =
    | KeyError(key: string)   // a sender without a writing hash
    | AttributeError          // the sender search found nothing
    | IndexError              // a pop from an empty pool, a missing colour, a template without `{role}`

  /** How an iteration ends: the pending turn was handed over and a new one
      is pending; the new turn's sender is no role and the loop goes round
      again; or an exception stops the program. */
  datatype Outcome = Accepted | Rejected(sender: string) | Raised(error: Error)

  /** The pending turn, `last_message`. The image bytes and their terminal
      rendering are represented by the picture they are made from. */
  datatype Message = Message(sender: string, text: string, image: Option<Picture>, alt: string, sound: string, newRun: bool)

  /** The command-line options and what was read from disk: the prompt list
      of the JSON file and the sound paths the glob found. */
  datatype Settings = Settings(
    roles: seq<string>, colors: seq<string>, template: string, image: string,
    runLength: int, baseTime: real, letterTime: real, imageTime: real, runTime: real, delay: real, rapid: bool,
    prompts: seq<string>, sounds: seq<string>)

  /** What the setup takes from outside the program: one `randint` seed per
      role, the shuffles of the first prompt and sound refills, and the
      run-length factor. */
  datatype Opening = Opening(seeds: seq<int>, promptShuffle: seq<string>, runFactor: real, soundShuffle: seq<string>)

  /** What one iteration takes from outside the program: the read deviation
      factor, the clock at generation start, the text generator's output, the
      shuffle a prompt refill would use and the run-length factor, the clock
      after generation, the write deviation factor, and the shuffle a sound
      refill would use. */
  datatype Draws = Draws(
    readFactor: real, now: real, generated: string,
    promptShuffle: seq<string>, runFactor: real,
    later: real, writeFactor: real, soundShuffle: seq<string>)

  /** The part of the setup the loop reads and never changes. */
  datatype Config = Config(
    roles: seq<string>, colors: seq<string>, grammar: Grammar, runLength: int,
    baseTime: real, letterTime: real, imageTime: real, runTime: real, rapid: bool)

  /** The variables the loop updates: the prompt of the next generation, the
      pending turn, the sender read last, what is left of the current run,
      whether a new run has begun, when the pending generation started (0
      while none is pending), each role's next image seed, and the working
      copies of the prompt and sound pools. */
  datatype Vars = Vars(
    prompt: string, last: Message, lastSender: string, runLeft: int,
    newRun: bool, start: real, imageSeed: map<string, int>,
    prompts: seq<string>, sounds: seq<string>)

  /** Where an iteration leaves things: the loop variables, what it wrote to
      the store (and slept), and how it ended. */
  datatype Step = Step(v: Vars, events: seq<Event>, outcome: Outcome)

  /** The fields of a turn that go into its message hash. */
  function RecordOf(m: Message): Record {
    Record(m.sender, m.text, m.image, m.alt, m.sound)
  }

  /** The records of a sequence of turns, in order. */
  function Records(ms: seq<Message>): (r: seq<Record>)
    ensures |r| == |ms|
    ensures forall k :: 0 <= k < |ms| ==> r[k] == RecordOf(ms[k])
  {
    if ms == [] then [] else Records(ms[..|ms| - 1]) + [RecordOf(ms[|ms| - 1])]
  }

  /** How many of the turns carry a selfie of `role`. */
  function Selfies(ms: seq<Message>, role: string): nat {
    if ms == [] then 0
    else
      var m := ms[|ms| - 1];
      Selfies(ms[..|ms| - 1], role) + (if m.image.Some? && m.sender == role then 1 else 0)
  }

  /** The first position of `role` at or after `from`, or the length of
      `roles` when it does not occur there. */
  function Position(roles: seq<string>, role: string, from: nat): (i: nat)
    requires from <= |roles|
    ensures from <= i <= |roles|
    ensures i < |roles| ==> roles[i] == role
    ensures forall k :: from <= k < i ==> roles[k] != role
    decreases |roles| - from
  {
    if from == |roles| then from
    else if roles[from] == role then from
    else Position(roles, role, from + 1)
  }

  /** `roles.index(role)`: the first position of `role`. */
  function IndexOfRole(roles: seq<string>, role: string): (i: nat)
    requires role in roles
    ensures i < |roles| && roles[i] == role
    ensures forall k :: 0 <= k < i ==> roles[k] != role
  {
    Position(roles, role, 0)
  }

  // ---------------------------------------------------------------------------
  // The setup

  /** The image-seed setup loop: every role gets a seed, and a role listed
      more than once keeps the seed drawn for its last occurrence. */
  method SetupSeeds(roles: seq<string>, seeds: seq<int>) returns (seedOf: map<string, int>)
    requires |seeds| == |roles|
    ensures seedOf.Keys == RoleSet(roles)
    ensures forall k :: 0 <= k < |roles| && roles[k] !in roles[k + 1..] ==> seedOf[roles[k]] == seeds[k]
  {
    seedOf := map[];
    for i := 0 to |roles|
      invariant seedOf.Keys == RoleSet(roles[..i])
      invariant forall k :: 0 <= k < i && roles[k] !in roles[k + 1..i] ==> seedOf[roles[k]] == seeds[k]
    {
      assert RoleSet(roles[..i + 1]) == RoleSet(roles[..i]) + {roles[i]};
      seedOf := seedOf[roles[i] := seeds[i]];
    }
    assert roles[..|roles|] == roles;
  }

  /** How the setup ends: with the loop's first variables, or an exception. */
  datatype Start = Started(v: Vars) | Failed(error: Error)

  /** The setup after the template split: the first prompt is drawn from a
      fresh prompt pool, the first run length is drawn, the prompt's sender
      is searched and its text taken, and a first sound is drawn from a fresh
      sound pool. The first turn has no selfie and starts no run. */
  function FirstTurn(s: Settings, g: Grammar, o: Opening, seedOf: map<string, int>): (r: Start)
    ensures r.Started? ==> r.v.last.image.None? && r.v.last.alt == "" && r.v.last.sender == r.v.lastSender
    ensures r.Started? ==> r.v.imageSeed == seedOf && r.v.start == 0.0 && !r.v.newRun && !r.v.last.newRun
  {
    var p := Pop([], o.promptShuffle);
    if p.0.None? then Failed(IndexError)
    else
      var prompt := p.0.value;
      var runLeft := Trunc(s.runLength as real * o.runFactor);
      var found := FirstSender(g, prompt);
      if found.None? then Failed(AttributeError)
      else
        var snd := Pop([], o.soundShuffle);
        if snd.0.None? then Failed(IndexError)
        else
          var first := Message(found.value, MessageText(g, prompt), None, "", snd.0.value, false);
          Started(Vars(prompt, first, found.value, runLeft, false, 0.0, seedOf, p.1, snd.1))
  }

  /** The first turn is the drawn prompt's: its sender is the prompt's, its
      text the prompt with delimiters removed, its sound a sound file; the
      setup fails with IndexError exactly when there are no prompts or no
      sounds, and with AttributeError when the prompt names no sender. */
  lemma FirstTurnSpec(s: Settings, g: Grammar, o: Opening, seedOf: map<string, int>)
    requires multiset(o.promptShuffle) == multiset(WithNewlines(s.prompts))
    requires multiset(o.soundShuffle) == multiset(s.sounds)
    ensures s.prompts == [] ==> FirstTurn(s, g, o, seedOf) == Failed(IndexError)
    ensures s.prompts != [] && s.sounds == [] ==> FirstTurn(s, g, o, seedOf).Failed?
    ensures FirstTurn(s, g, o, seedOf) == Failed(AttributeError) ==> s.prompts != [] && !HasDelimiter(g, Pop([], o.promptShuffle).0.value)
    ensures FirstTurn(s, g, o, seedOf).Started? ==>
      var v := FirstTurn(s, g, o, seedOf).v;
      && v.prompt in WithNewlines(s.prompts) && Within(v.prompts, WithNewlines(s.prompts))
      && v.last.sound in s.sounds && Within(v.sounds, s.sounds)
      && Some(v.last.sender) == FirstSender(g, v.prompt) && v.last.text == MessageText(g, v.prompt)
  {
    assert Within([], WithNewlines(s.prompts)) && Within([], s.sounds);
    PopWithin([], o.promptShuffle, WithNewlines(s.prompts));
    PopWithin([], o.soundShuffle, s.sounds);
  }

  // ---------------------------------------------------------------------------
  // One iteration of the loop

  /** A sleep, skipped in rapid mode. */
  function Pause(c: Config, seconds: real): seq<Event> {
    if c.rapid then [] else [Sleep(seconds)]
  }

  lemma PauseLog(c: Config, seconds: real)
    ensures var r := Pause(c, seconds);
      && Published(r) == [] && Flags(r) == map[]
      && Sleeps(r) == if c.rapid then [] else [seconds]
  {
  }

  /** The read wait before the pending turn: the full wait only when its
      sender differs from the sender read last, a short one otherwise. */
  function ReadTime(c: Config, v: Vars, factor: real): real {
    if v.lastSender != v.last.sender
    then WaitTime(v.last.text, v.last.image.Some?, c.baseTime, c.letterTime, c.imageTime, factor)
    else WaitTime("", false, 1.0, 0.0, 0.0, factor)
  }

  /** The text generator is consulted while the run lasts, or always when
      runs never end (a run length of 0). */
  predicate GeneratorCalled(c: Config, v: Vars) {
    v.runLeft > 0 || c.runLength == 0
  }

  /** The kept responses of this iteration's generation, filtered as
      written; none when the generator is not consulted. */
  function Generated(c: Config, v: Vars, d: Draws): seq<string> {
    if GeneratorCalled(c, v) then Responses(c.grammar, RemoveAll(d.generated, v.prompt)) else []
  }

  /** The text the next turn is made from (`responses_list[0]`), with the
      prompt pool's working copy and the run variables after choosing it;
      `None` when a prompt had to be drawn from an empty pool. */
  datatype Choice = Choice(response: Option<string>, prompts: seq<string>, runLeft: int, newRun: bool)

  /** The generator's first kept response while the run lasts; otherwise,
      or when none is kept, a prompt drawn from the pool, which starts a
      new run. */
  function Choose(c: Config, v: Vars, d: Draws): Choice {
    var responses := Generated(c, v, d);
    if responses != [] then Choice(Some(responses[0]), v.prompts, v.runLeft, v.newRun)
    else Draw(c, v, d)
  }

  /** `[prompts.get()]` and a new run length: a prompt drawn from the pool,
      which starts a new run. */
  function Draw(c: Config, v: Vars, d: Draws): Choice {
    var p := Pop(v.prompts, d.promptShuffle);
    if p.0.None? then Choice(None, p.1, v.runLeft, v.newRun)
    else Choice(p.0, p.1, Trunc(c.runLength as real * d.runFactor), true)
  }

  /** What the regular expressions make of a response: the sender search,
      the message text, and whether the text asks for a selfie (in which case
      the placeholder is taken out of the text). */
  datatype Reading = Reading(sender: Option<string>, text: string, selfie: bool)

  function ReadResponse(g: Grammar, response: string): Reading {
    var text := MessageText(g, response);
    if Contains(text, g.image)
    then Reading(FirstSender(g, response), DisplayText(text, g.image), true)
    else Reading(FirstSender(g, response), text, false)
  }

  /** The new turn's text, selfie and caption, and the seeds after it. */
  datatype Composed = Composed(text: string, image: Option<Picture>, alt: string, imageSeed: map<string, int>)

  /** A selfie, when the response asks for one, is the sender's picture at
      the sender's next seed, which then moves on, with a caption naming the
      sender. */
  function Compose(rd: Reading, sender: string, seed: map<string, int>): Composed
    requires sender in seed
  {
    if rd.selfie
    then Composed(rd.text, Some(Picture(sender, seed[sender])), "selfie of " + sender, seed[sender := seed[sender] + 1])
    else Composed(rd.text, None, "", seed)
  }

  /** Handing the pending turn over: what is left of its writing time once
      the generation time is taken off, the pause between runs after a new
      prompt, its message hash, and the reset of the NEW sender's writing
      hash, which names the pending turn's sender as writer. */
  function Handover(c: Config, last: Message, sender: string, wait: real): seq<Event> {
    Pause(c, wait) + (if last.newRun && !c.rapid then [Sleep(c.runTime)] else []) + [Publish(RecordOf(last)), SetWriting(sender, Flag(last.sender, 0))]
  }

  lemma HandoverLog(c: Config, last: Message, sender: string, wait: real)
    ensures var r := Handover(c, last, sender, wait);
      && Published(r) == [RecordOf(last)]
      && Flags(r) == map[sender := Flag(last.sender, 0)]
      && Sleeps(r) == if c.rapid then [] else [wait] + (if last.newRun then [c.runTime] else [])
  {
    var extra := if last.newRun && !c.rapid then [Sleep(c.runTime)] else [];
    var tail := [Publish(RecordOf(last)), SetWriting(sender, Flag(last.sender, 0))];
    PauseLog(c, wait);
    ExtraLog(last.newRun && !c.rapid, c.runTime);
    PublishLog(RecordOf(last), sender, Flag(last.sender, 0));
    LogOfThree(Pause(c, wait), extra, tail);
    assert Handover(c, last, sender, wait) == Pause(c, wait) + extra + tail;
    assert Published(Pause(c, wait)) + Published(extra) + Published(tail) == [RecordOf(last)];
    assert Flags(Pause(c, wait)) + Flags(extra) + Flags(tail) == map[sender := Flag(last.sender, 0)];
    if c.rapid {
      assert Sleeps(Pause(c, wait)) + Sleeps(extra) + Sleeps(tail) == [];
    } else {
      assert Sleeps(Pause(c, wait)) + Sleeps(extra) + Sleeps(tail) == [wait] + (if last.newRun then [c.runTime] else []);
    }
  }

  /** The pause between runs, when there is one. */
  lemma ExtraLog(pause: bool, seconds: real)
    ensures var log := if pause then [Sleep(seconds)] else [];
      && Published(log) == [] && Flags(log) == map[]
      && Sleeps(log) == if pause then [seconds] else []
  {
    Extend([], Sleep(seconds));
    assert [] + [Sleep(seconds)] == [Sleep(seconds)];
  }

  /** What three logs in a row publish, set and sleep. */
  lemma LogOfThree(a: seq<Event>, b: seq<Event>, t: seq<Event>)
    ensures Published(a + b + t) == Published(a) + Published(b) + Published(t)
    ensures Flags(a + b + t) == Flags(a) + Flags(b) + Flags(t)
    ensures Sleeps(a + b + t) == Sleeps(a) + Sleeps(b) + Sleeps(t)
  {
    PublishedAppend(a, b);
    PublishedAppend(a + b, t);
    FlagsAppend(a, b);
    FlagsAppend(a + b, t);
    SleepsAppend(a, b);
    SleepsAppend(a + b, t);
  }

  /** Publishing a message hash and resetting a writing flag. */
  lemma PublishLog(r: Record, sender: string, f: Flag)
    ensures var log := [Publish(r), SetWriting(sender, f)];
      && Published(log) == [r] && Flags(log) == map[sender := f] && Sleeps(log) == []
  {
    var e0, e1 := Publish(r), SetWriting(sender, f);
    Extend([], e0);
    assert [] + [e0] == [e0];
    Extend([e0], e1);
    assert [e0] + [e1] == [e0, e1];
  }

  /** One iteration of the `while True` loop: read the pending turn, raise
      its sender's writing flag, obtain a response and go on with it. */
  function Iteration(c: Config, v: Vars, d: Draws): (r: Step)
    requires RoleSet(c.roles) <= v.imageSeed.Keys
    ensures r.outcome.Raised? && r.outcome.error.KeyError? <==> v.last.sender !in c.roles
    ensures RoleSet(c.roles) <= r.v.imageSeed.Keys
  {
    var read := Pause(c, ReadTime(c, v, d.readFactor));
    PauseLog(c, ReadTime(c, v, d.readFactor));
    var v1 := v.(lastSender := v.last.sender);
    if v.last.sender !in c.roles then Step(v1, read, Raised(KeyError(v.last.sender)))
    else
      var flagged := read + [SetWriting(v.last.sender, Flag(v.last.sender, 1))];
      var ch := Choose(c, v, d);
      var v2 := v1.(start := if v.start != 0.0 then v.start else d.now, runLeft := ch.runLeft, newRun := ch.newRun, prompts := ch.prompts);
      if ch.response.None? then Step(v2, flagged, Raised(IndexError))
      else
        var r := Respond(c, v2, d, ch.response.value, ReadResponse(c.grammar, ch.response.value));
        Step(r.v, flagged + r.events, r.outcome)
  }

  /** The iteration once a response is in hand and read, with what it
      writes from then on: without a sender the search result has no group
      to take; a sender that is no role sends the loop round again. */
  function Respond(c: Config, v: Vars, d: Draws, response: string, rd: Reading): (r: Step)
    requires RoleSet(c.roles) <= v.imageSeed.Keys && v.last.sender in c.roles
    ensures r.outcome == Raised(AttributeError) <==> rd.sender.None?
    ensures r.outcome.Rejected? ==> r.outcome.sender == rd.sender.value
    ensures !(r.outcome.Raised? && r.outcome.error.KeyError?)
    ensures RoleSet(c.roles) <= r.v.imageSeed.Keys
  {
    if rd.sender.None? then Step(v, [], Raised(AttributeError))
    else if rd.sender.value !in c.roles then Step(v, [], Rejected(rd.sender.value))
    else Deliver(c, v, d, rd.sender.value, response, rd)
  }

  /** Going on with a sender that is a role: compose the new turn, hand the
      pending one over, and count the run down by one; the response becomes
      the next prompt. */
  function Deliver(c: Config, v: Vars, d: Draws, sender: string, response: string, rd: Reading): Step
    requires RoleSet(c.roles) <= v.imageSeed.Keys && v.last.sender in c.roles && sender in c.roles
  {
    var last := v.last;
    var m := Compose(rd, sender, v.imageSeed);
    var wait := WriteWait(WaitTime(last.text, last.image.Some?, c.baseTime, c.letterTime, c.imageTime, d.writeFactor), d.later - v.start);
    var v3 := v.(prompt := response, imageSeed := m.imageSeed, start := 0.0, runLeft := v.runLeft - 1);
    var e := Conclude(c, v3, d, sender, m);
    Step(e.v, Handover(c, last, sender, wait), e.outcome)
  }

  /** How the end of an iteration leaves the loop variables. */
  datatype Ending = Ending(v: Vars, outcome: Outcome)

  /** The end of an iteration: the pending turn's colour is looked up, and
      the new turn, with a sound drawn for it, becomes the pending one. */
  function Conclude(c: Config, v: Vars, d: Draws, sender: string, m: Composed): Ending
    requires v.last.sender in c.roles
  {
    if IndexOfRole(c.roles, v.last.sender) >= |c.colors| then Ending(v, Raised(IndexError))
    else
      var s := Pop(v.sounds, d.soundShuffle);
      if s.0.None? then Ending(v.(sounds := s.1), Raised(IndexError))
      else Ending(v.(last := Message(sender, m.text, m.image, m.alt, s.0.value, v.newRun), newRun := false, sounds := s.1), Accepted)
  }

  // ---------------------------------------------------------------------------
  // What an iteration keeps

  /** Each role's next image seed after the turns `ms`: its first seed,
      moved on once per selfie of it. */
  function SeedsAfter(seed: map<string, int>, ms: seq<Message>): (r: map<string, int>)
    ensures r.Keys == seed.Keys
  {
    if ms == [] then seed
    else
      var s := SeedsAfter(seed, ms[..|ms| - 1]);
      var m := ms[|ms| - 1];
      if m.image.Some? && m.sender in s then s[m.sender := s[m.sender] + 1] else s
  }

  /** A turn's selfie, if it has one, is of its sender, drawn from the
      sender's seed after the earlier turns; its caption is
      `selfie of <sender>` exactly when it has a selfie. */
  predicate SelfieFits(m: Message, seed: map<string, int>, earlier: seq<Message>) {
    && (m.image.Some? ==> m.sender in seed && m.image.value == Picture(m.sender, SeedsAfter(seed, earlier)[m.sender]))
    && m.alt == (if m.image.Some? then "selfie of " + m.sender else "")
  }

  /** Every turn published so far had a role as sender and a fitting
      selfie. */
  ghost predicate WellFormedHistory(ms: seq<Message>, roles: seq<string>, seed: map<string, int>) {
    ms == [] || (
      && WellFormedHistory(ms[..|ms| - 1], roles, seed)
      && ms[|ms| - 1].sender in roles
      && SelfieFits(ms[|ms| - 1], seed, ms[..|ms| - 1]))
  }

  /** What holds between iterations, given the turns `shown` published so
      far and the seeds `seed` the image generators started from: every role
      has a seed; the published turns are well-formed; the pending turn's
      selfie fits; and the seeds are those after every turn so far, the
      pending one included. */
  ghost predicate Consistent(c: Config, v: Vars, shown: seq<Message>, seed: map<string, int>) {
    && RoleSet(c.roles) <= seed.Keys
    && WellFormedHistory(shown, c.roles, seed)
    && SelfieFits(v.last, seed, shown)
    && v.imageSeed == SeedsAfter(seed, shown + [v.last])
  }

  /** One more turn moves on its sender's seed exactly when it has a
      selfie. */
  lemma SeedsGrow(seed: map<string, int>, shown: seq<Message>, m: Message)
    ensures var s := SeedsAfter(seed, shown);
      SeedsAfter(seed, shown + [m]) == if m.image.Some? && m.sender in s then s[m.sender := s[m.sender] + 1] else s
  {
    var h := shown + [m];
    assert h[..|h| - 1] == shown && h[|h| - 1] == m;
  }

  /** A turn with a role as sender and a fitting selfie extends a
      well-formed history. */
  lemma HistoryGrows(shown: seq<Message>, m: Message, roles: seq<string>, seed: map<string, int>)
    requires WellFormedHistory(shown, roles, seed)
    requires m.sender in roles && SelfieFits(m, seed, shown)
    ensures WellFormedHistory(shown + [m], roles, seed)
  {
    var h := shown + [m];
    assert h[..|h| - 1] == shown && h[|h| - 1] == m;
  }

  /** Handing the pending turn (whose sender is a role) over to a turn
      composed for a role keeps things consistent, with the pending turn
      now published. */
  lemma AcceptKeeps(c: Config, v: Vars, v': Vars, rd: Reading, sender: string, shown: seq<Message>, seed: map<string, int>)
    requires Consistent(c, v, shown, seed)
    requires v.last.sender in c.roles && sender in c.roles
    requires var m := Compose(rd, sender, v.imageSeed);
      && v'.last.sender == sender && v'.last.image == m.image && v'.last.alt == m.alt && v'.imageSeed == m.imageSeed
    ensures Consistent(c, v', shown + [v.last], seed)
  {
    HistoryGrows(shown, v.last, c.roles, seed);
    ComposedFits(rd, sender, seed, shown + [v.last], v.imageSeed, v');
  }

  /** A turn composed from the seeds after the earlier turns has a fitting
      selfie, and moves the seeds on past itself. */
  lemma ComposedFits(rd: Reading, sender: string, seed: map<string, int>, earlier: seq<Message>, s: map<string, int>, v': Vars)
    requires s == SeedsAfter(seed, earlier) && sender in s
    requires var m := Compose(rd, sender, s);
      && v'.last.sender == sender && v'.last.image == m.image && v'.last.alt == m.alt && v'.imageSeed == m.imageSeed
    ensures SelfieFits(v'.last, seed, earlier)
    ensures v'.imageSeed == SeedsAfter(seed, earlier + [v'.last])
  {
    SeedsGrow(seed, earlier, v'.last);
  }

  /** Once a response is read, the iteration writes to the store only when
      the response names a role, and then it hands the pending turn over,
      publishing it. */
  lemma RespondPublishes(c: Config, v: Vars, d: Draws, response: string, rd: Reading)
    requires RoleSet(c.roles) <= v.imageSeed.Keys && v.last.sender in c.roles
    ensures var a := Respond(c, v, d, response, rd);
      var handed := rd.sender.Some? && rd.sender.value in c.roles;
      var wait := WriteWait(WaitTime(v.last.text, v.last.image.Some?, c.baseTime, c.letterTime, c.imageTime, d.writeFactor), d.later - v.start);
      && a.events == (if handed then Handover(c, v.last, rd.sender.value, wait) else [])
      && Published(a.events) == (if handed then [RecordOf(v.last)] else [])
      && Flags(a.events) == (if handed then map[rd.sender.value := Flag(v.last.sender, 0)] else map[])
      && Sleeps(a.events) == (if handed && !c.rapid then [wait] + (if v.last.newRun then [c.runTime] else []) else [])
  {
    if rd.sender.Some? && rd.sender.value in c.roles {
      var wait := WriteWait(WaitTime(v.last.text, v.last.image.Some?, c.baseTime, c.letterTime, c.imageTime, d.writeFactor), d.later - v.start);
      HandoverLog(c, v.last, rd.sender.value, wait);
    }
  }

  /** A read response is rejected exactly when it names a sender that is not
      a role, and a rejection changes nothing. */
  lemma RespondRejects(c: Config, v: Vars, d: Draws, response: string, rd: Reading)
    requires RoleSet(c.roles) <= v.imageSeed.Keys && v.last.sender in c.roles
    ensures var a := Respond(c, v, d, response, rd);
      && (a.outcome.Rejected? <==> rd.sender.Some? && rd.sender.value !in c.roles)
      && (a.outcome.Rejected? ==> a.v == v)
  {
  }

  /** An accepted response becomes the pending turn: the composed turn of
      its sender, with the seeds after composing it. */
  lemma RespondAccepts(c: Config, v: Vars, d: Draws, response: string, rd: Reading)
    requires RoleSet(c.roles) <= v.imageSeed.Keys && v.last.sender in c.roles
    ensures var a := Respond(c, v, d, response, rd);
      a.outcome.Accepted? ==>
        && rd.sender.Some? && rd.sender.value in c.roles
        && var m := Compose(rd, rd.sender.value, v.imageSeed);
        && a.v.last.sender == rd.sender.value && a.v.last.text == m.text && a.v.last.image == m.image && a.v.last.alt == m.alt
        && a.v.imageSeed == m.imageSeed
  {
  }

  /** Once a response is read, an accepted iteration draws the new turn's
      sound from the sound pool, marks it with the pending new-run flag (which
      it clears), counts the run down and makes the response the next
      prompt. The prompt pool is not touched, and no ending is a missing
      writing hash. */
  lemma RespondState(c: Config, v: Vars, d: Draws, response: string, rd: Reading)
    requires RoleSet(c.roles) <= v.imageSeed.Keys && v.last.sender in c.roles
    ensures var a := Respond(c, v, d, response, rd);
      var s := Pop(v.sounds, d.soundShuffle);
      && a.v.prompts == v.prompts && a.v.lastSender == v.lastSender
      && !(a.outcome.Raised? && a.outcome.error.KeyError?)
      && (a.outcome.Accepted? ==>
            && s.0.Some? && a.v.sounds == s.1 && a.v.last.sound == s.0.value
            && a.v.last.newRun == v.newRun && !a.v.newRun
            && a.v.prompt == response && a.v.runLeft == v.runLeft - 1 && a.v.start == 0.0)
  {
  }

  /** Any ending but acceptance leaves the pending turn as it was, with at
      most the sound draw done. */
  lemma RespondPending(c: Config, v: Vars, d: Draws, response: string, rd: Reading)
    requires RoleSet(c.roles) <= v.imageSeed.Keys && v.last.sender in c.roles
    ensures var a := Respond(c, v, d, response, rd);
      var s := Pop(v.sounds, d.soundShuffle);
      !a.outcome.Accepted? ==> a.v.last == v.last && (a.v.sounds == v.sounds || a.v.sounds == s.1)
  {
  }

  /** Raising a writing hash after earlier events publishes and sleeps
      nothing more. */
  lemma RaiseAppended(events: seq<Event>, role: string, flag: Flag)
    ensures var log := events + [SetWriting(role, flag)];
      && Published(log) == Published(events)
      && Flags(log) == Flags(events)[role := flag]
      && Sleeps(log) == Sleeps(events)
  {
    var log := events + [SetWriting(role, flag)];
    assert log[..|log| - 1] == events;
  }

  /** Appending a log appends to each of its readings. */
  lemma Appended(a: seq<Event>, b: seq<Event>)
    ensures Published(a + b) == Published(a) + Published(b)
    ensures Flags(a + b) == Flags(a) + Flags(b)
    ensures Sleeps(a + b) == Sleeps(a) + Sleeps(b)
  {
    PublishedAppend(a, b);
    FlagsAppend(a, b);
    SleepsAppend(a, b);
  }

  /** Overriding a map by a map with one key, or none. */
  lemma Override<K, V>(m: map<K, V>, k: K, x: V)
    ensures m + map[k := x] == m[k := x]
    ensures m + map[] == m
  {
  }

  /** An iteration publishes at most the pending turn, and only when its
      sender is a role: an accepted iteration publishes it, a rejected one
      publishes nothing. */
  lemma IterationPublishes(c: Config, v: Vars, d: Draws)
    requires RoleSet(c.roles) <= v.imageSeed.Keys
    ensures var a := Iteration(c, v, d);
      && (Published(a.events) == [] || (Published(a.events) == [RecordOf(v.last)] && v.last.sender in c.roles))
      && (a.outcome.Accepted? ==> Published(a.events) == [RecordOf(v.last)])
      && (a.outcome.Rejected? ==> Published(a.events) == [])
  {
    var a := Iteration(c, v, d);
    var read := Pause(c, ReadTime(c, v, d.readFactor));
    PauseLog(c, ReadTime(c, v, d.readFactor));
    if v.last.sender !in c.roles {
      assert a.events == read && a.outcome.Raised?;
    } else {
      var flagged := read + [SetWriting(v.last.sender, Flag(v.last.sender, 1))];
      RaiseAppended(read, v.last.sender, Flag(v.last.sender, 1));
      var ch := Choose(c, v, d);
      if ch.response.None? {
        assert a.events == flagged && a.outcome.Raised?;
      } else {
        var v2 := v.(lastSender := v.last.sender).(start := if v.start != 0.0 then v.start else d.now, runLeft := ch.runLeft, newRun := ch.newRun, prompts := ch.prompts);
        var rd := ReadResponse(c.grammar, ch.response.value);
        var r := Respond(c, v2, d, ch.response.value, rd);
        assert a.events == flagged + r.events && a.outcome == r.outcome;
        RespondPublishes(c, v2, d, ch.response.value, rd);
        RespondRejects(c, v2, d, ch.response.value, rd);
        RespondAccepts(c, v2, d, ch.response.value, rd);
        PublishedAppend(flagged, r.events);
      }
    }
  }

  /** An accepted iteration keeps things consistent with the pending turn
      now among the published turns; a rejected one keeps them consistent
      as they were. */
  lemma IterationKeeps(c: Config, v: Vars, d: Draws, shown: seq<Message>, seed: map<string, int>)
    requires Consistent(c, v, shown, seed)
    ensures var a := Iteration(c, v, d);
      && (a.outcome.Accepted? ==> Consistent(c, a.v, shown + [v.last], seed))
      && (a.outcome.Rejected? ==> Consistent(c, a.v, shown, seed))
  {
    var a := Iteration(c, v, d);
    if v.last.sender !in c.roles {
      assert a.outcome.Raised?;
    } else {
      var ch := Choose(c, v, d);
      if ch.response.None? {
        assert a.outcome.Raised?;
      } else {
        var v2 := v.(lastSender := v.last.sender).(start := if v.start != 0.0 then v.start else d.now, runLeft := ch.runLeft, newRun := ch.newRun, prompts := ch.prompts);
        var rd := ReadResponse(c.grammar, ch.response.value);
        var r := Respond(c, v2, d, ch.response.value, rd);
        assert a.v == r.v && a.outcome == r.outcome;
        RespondRejects(c, v2, d, ch.response.value, rd);
        RespondAccepts(c, v2, d, ch.response.value, rd);
        if r.outcome.Accepted? {
          AcceptKeeps(c, v2, r.v, rd, rd.sender.value, shown, seed);
        } else if r.outcome.Rejected? {
          assert Consistent(c, v2, shown, seed);
        }
      }
    }
  }

  /** The sound pool's working copy is the one before or the one left by a
      draw, and a new pending turn carries the drawn sound. */
  lemma IterationSoundDrawn(c: Config, v: Vars, d: Draws)
    requires RoleSet(c.roles) <= v.imageSeed.Keys
    ensures var a := Iteration(c, v, d);
      var s := Pop(v.sounds, d.soundShuffle);
      && (a.v.sounds == v.sounds || a.v.sounds == s.1)
      && (a.outcome.Accepted? ==> s.0.Some? && a.v.last.sound == s.0.value)
      && (!a.outcome.Accepted? ==> a.v.last == v.last)
  {
    if v.last.sender in c.roles {
      var ch := Choose(c, v, d);
      if ch.response.Some? {
        var v2 := v.(lastSender := v.last.sender).(start := if v.start != 0.0 then v.start else d.now, runLeft := ch.runLeft, newRun := ch.newRun, prompts := ch.prompts);
        RespondState(c, v2, d, ch.response.value, ReadResponse(c.grammar, ch.response.value));
        RespondPending(c, v2, d, ch.response.value, ReadResponse(c.grammar, ch.response.value));
      }
    }
  }

  /** The pending turn's sender is read first; a sender without a writing
      hash stops the program after the read wait and nothing else, and no
      other ending raises that error. */
  lemma IterationStart(c: Config, v: Vars, d: Draws)
    requires RoleSet(c.roles) <= v.imageSeed.Keys
    ensures var a := Iteration(c, v, d);
      && a.v.lastSender == v.last.sender
      && (a.outcome == Raised(KeyError(v.last.sender)) <==> v.last.sender !in c.roles)
      && (a.outcome.Raised? && a.outcome.error.KeyError? ==> a.outcome.error.key == v.last.sender)
      && (v.last.sender !in c.roles ==> a.events == Pause(c, ReadTime(c, v, d.readFactor)) && a.v == v.(lastSender := v.last.sender))
  {
    if v.last.sender in c.roles {
      var ch := Choose(c, v, d);
      if ch.response.Some? {
        var v2 := v.(lastSender := v.last.sender).(start := if v.start != 0.0 then v.start else d.now, runLeft := ch.runLeft, newRun := ch.newRun, prompts := ch.prompts);
        RespondState(c, v2, d, ch.response.value, ReadResponse(c.grammar, ch.response.value));
      }
    }
  }

  /** The response of an iteration is the generator's first kept response
      while the run lasts: the first fragment of the continuation that holds
      a delimiter, stripped of spaces; the prompt pool is then not drawn
      from and the run goes on. */
  lemma ChooseGenerated(c: Config, v: Vars, d: Draws)
    requires Generated(c, v, d) != []
    ensures var gen := Generated(c, v, d);
      var fragments := Fragments(c.grammar, RemoveAll(d.generated, v.prompt));
      && GeneratorCalled(c, v)
      && Choose(c, v, d) == Choice(Some(gen[0]), v.prompts, v.runLeft, v.newRun)
      && exists k :: 0 <= k < |fragments| && HasDelimiter(c.grammar, fragments[k])
           && (forall j :: 0 <= j < k ==> !HasDelimiter(c.grammar, fragments[j]))
           && gen[0] == StripBlanks(fragments[k])
  {
    KeptAsWrittenFirst(c.grammar, Fragments(c.grammar, RemoveAll(d.generated, v.prompt)));
  }

  /** A chosen response in which the sender search finds nothing ends the
      program with AttributeError once the writing flag is raised: nothing
      is published. */
  lemma IterationWithoutSender(c: Config, v: Vars, d: Draws)
    requires RoleSet(c.roles) <= v.imageSeed.Keys && v.last.sender in c.roles
    requires Choose(c, v, d).response.Some? && FirstSender(c.grammar, Choose(c, v, d).response.value).None?
    ensures Iteration(c, v, d).outcome == Raised(AttributeError)
    ensures Published(Iteration(c, v, d).events) == []
  {
    var read := Pause(c, ReadTime(c, v, d.readFactor));
    PauseLog(c, ReadTime(c, v, d.readFactor));
    RaiseAppended(read, v.last.sender, Flag(v.last.sender, 1));
    IterationEvents(c, v, d);
    Appended(read + [SetWriting(v.last.sender, Flag(v.last.sender, 1))], []);
    var ch := Choose(c, v, d);
    var v2 := v.(lastSender := v.last.sender).(start := if v.start != 0.0 then v.start else d.now, runLeft := ch.runLeft, newRun := ch.newRun, prompts := ch.prompts);
    assert ReadResponse(c.grammar, ch.response.value).sender.None?;
    assert Iteration(c, v, d).outcome == Respond(c, v2, d, ch.response.value, ReadResponse(c.grammar, ch.response.value)).outcome;
  }

  /** The discrepancy of the as-written filter, seen from the loop: with
      the template `[{role}] `, a continuation `[B] ` (which does not contain
      the prompt) leaves the kept response `[B]`, and the iteration raises
      AttributeError where a new prompt was evidently meant to be drawn. */
  lemma TrailingDelimiterRaises(c: Config, v: Vars, d: Draws)
    requires RoleSet(c.roles) <= v.imageSeed.Keys && v.last.sender in c.roles
    requires c.grammar == Brackets && GeneratorCalled(c, v)
    requires d.generated == "[B] " && |v.prompt| > 0 && !Contains("[B] ", v.prompt)
    ensures Iteration(c, v, d).outcome == Raised(AttributeError)
  {
    TrailingDelimiterLost();
    assert RemoveAll(d.generated, v.prompt) == "[B] ";
    assert Generated(c, v, d) == ["[B]"];
    assert Choose(c, v, d).response == Some("[B]");
    IterationWithoutSender(c, v, d);
  }

  /** When the run is over or no response is kept, the choice is a prompt
      drawn from the pool, which starts a new run of the configured length
      scaled by the drawn factor. With the pool's working copy within the
      prompt file and a fair shuffle, the copy stays within it, the draw
      fails only when the file is empty, and the drawn prompt is one of the
      file. */
  lemma ChooseDrawn(c: Config, v: Vars, d: Draws, prompts: seq<string>)
    requires Within(v.prompts, prompts)
    requires multiset(d.promptShuffle) == multiset(prompts)
    ensures !GeneratorCalled(c, v) || Generated(c, v, d) == [] ==> Choose(c, v, d) == Draw(c, v, d)
    ensures DrawFits(c, d, prompts, Draw(c, v, d))
  {
    DrawWithin(c, v, d, prompts);
    ChooseFallsBack(c, v, d);
  }

  /** What a draw from a pool within the prompt file gives. */
  predicate DrawFits(c: Config, d: Draws, prompts: seq<string>, ch: Choice) {
    && Within(ch.prompts, prompts)
    && (ch.response.None? <==> prompts == [])
    && (ch.response.Some? ==> ch.response.value in prompts && ch.newRun && ch.runLeft == Trunc(c.runLength as real * d.runFactor))
  }

  lemma DrawWithin(c: Config, v: Vars, d: Draws, prompts: seq<string>)
    requires Within(v.prompts, prompts)
    requires multiset(d.promptShuffle) == multiset(prompts)
    ensures DrawFits(c, d, prompts, Draw(c, v, d))
  {
    PopWithin(v.prompts, d.promptShuffle, prompts);
  }

  /** Without a kept response, choosing is drawing. */
  lemma ChooseFallsBack(c: Config, v: Vars, d: Draws)
    ensures !GeneratorCalled(c, v) || Generated(c, v, d) == [] ==> Choose(c, v, d) == Draw(c, v, d)
  {
  }

  /** Where the iteration leaves the loop variables once the pending
      turn's sender is known: the prompt pool's copy is the one after
      choosing; an accepted response becomes the next prompt and the new
      pending turn, which takes over the new-run flag; a rejected one keeps
      the generation start and the run as chosen, for the next attempt. */
  lemma IterationResponse(c: Config, v: Vars, d: Draws)
    requires RoleSet(c.roles) <= v.imageSeed.Keys && v.last.sender in c.roles
    ensures var a := Iteration(c, v, d);
      var ch := Choose(c, v, d);
      && a.v.prompts == ch.prompts
      && (ch.response.None? ==> a.outcome == Raised(IndexError) && a.v.last == v.last)
      && (a.outcome.Accepted? ==>
            && ch.response.Some? && a.v.prompt == ch.response.value
            && a.v.last.newRun == ch.newRun && !a.v.newRun
            && a.v.runLeft == ch.runLeft - 1 && a.v.start == 0.0)
      && (a.outcome.Rejected? ==>
            && a.v.last == v.last && a.v.prompt == v.prompt
            && a.v.newRun == ch.newRun && a.v.runLeft == ch.runLeft
            && a.v.start == (if v.start != 0.0 then v.start else d.now))
  {
    var ch := Choose(c, v, d);
    if ch.response.Some? {
      var v2 := v.(lastSender := v.last.sender).(start := if v.start != 0.0 then v.start else d.now, runLeft := ch.runLeft, newRun := ch.newRun, prompts := ch.prompts);
      var rd := ReadResponse(c.grammar, ch.response.value);
      RespondState(c, v2, d, ch.response.value, rd);
      RespondRejects(c, v2, d, ch.response.value, rd);
    }
  }

  /** The writing hashes an iteration leaves, as written: the pending
      turn's sender is raised to writing, and when its turn is handed over
      the new sender's hash is reset with the pending sender as writer, so
      the pending sender's own hash stays raised unless it is also the new
      sender. */
  lemma IterationFlags(c: Config, v: Vars, d: Draws)
    requires RoleSet(c.roles) <= v.imageSeed.Keys && v.last.sender in c.roles
    ensures var a := Iteration(c, v, d);
      var raised := map[v.last.sender := Flag(v.last.sender, 1)];
      && (Published(a.events) == [] ==> Flags(a.events) == raised)
      && (a.outcome.Accepted? ==> Flags(a.events) == raised[a.v.last.sender := Flag(v.last.sender, 0)])
  {
    var a := Iteration(c, v, d);
    var raised := map[v.last.sender := Flag(v.last.sender, 1)];
    var read := Pause(c, ReadTime(c, v, d.readFactor));
    PauseLog(c, ReadTime(c, v, d.readFactor));
    var flagged := read + [SetWriting(v.last.sender, Flag(v.last.sender, 1))];
    RaiseAppended(read, v.last.sender, Flag(v.last.sender, 1));
    assert Flags(flagged) == raised by { Override(map[], v.last.sender, Flag(v.last.sender, 1)); }
    var ch := Choose(c, v, d);
    if ch.response.None? {
      assert a.events == flagged;
    } else {
      var v2 := v.(lastSender := v.last.sender).(start := if v.start != 0.0 then v.start else d.now, runLeft := ch.runLeft, newRun := ch.newRun, prompts := ch.prompts);
      var rd := ReadResponse(c.grammar, ch.response.value);
      var r := Respond(c, v2, d, ch.response.value, rd);
      assert a.events == flagged + r.events && a.v == r.v && a.outcome == r.outcome;
      RespondPublishes(c, v2, d, ch.response.value, rd);
      RespondAccepts(c, v2, d, ch.response.value, rd);
      Appended(flagged, r.events);
      if rd.sender.Some? && rd.sender.value in c.roles {
        Override(raised, rd.sender.value, Flag(v.last.sender, 0));
      } else {
        Override(raised, v.last.sender, Flag(v.last.sender, 0));
      }
    }
  }

  /** The log of an iteration with a response: the read wait, a raised
      writing hash, and what the response leads to. It publishes the pending
      turn exactly when it is handed over, and then also sleeps what is left
      of the writing wait and, after a new prompt, the run pause. */
  lemma RespondSleeps(c: Config, v: Vars, d: Draws, response: string, rd: Reading, read: seq<Event>, raise: Event)
    requires RoleSet(c.roles) <= v.imageSeed.Keys && v.last.sender in c.roles
    requires raise.SetWriting? && Published(read) == []
    ensures var log := read + [raise] + Respond(c, v, d, response, rd).events;
      var wait := WriteWait(WaitTime(v.last.text, v.last.image.Some?, c.baseTime, c.letterTime, c.imageTime, d.writeFactor), d.later - v.start);
      Sleeps(log) == Sleeps(read) + (if Published(log) != [] && !c.rapid then [wait] + (if v.last.newRun then [c.runTime] else []) else [])
  {
    var r := Respond(c, v, d, response, rd);
    RespondPublishes(c, v, d, response, rd);
    RaiseAppended(read, raise.role, raise.flag);
    Appended(read + [raise], r.events);
  }

  /** An iteration with a response writes the read wait, the raised writing
      hash, and what the response leads to. */
  lemma IterationEvents(c: Config, v: Vars, d: Draws)
    requires RoleSet(c.roles) <= v.imageSeed.Keys && v.last.sender in c.roles && Choose(c, v, d).response.Some?
    ensures var ch := Choose(c, v, d);
      var v2 := v.(lastSender := v.last.sender).(start := if v.start != 0.0 then v.start else d.now, runLeft := ch.runLeft, newRun := ch.newRun, prompts := ch.prompts);
      Iteration(c, v, d).events ==
        Pause(c, ReadTime(c, v, d.readFactor)) + [SetWriting(v.last.sender, Flag(v.last.sender, 1))]
        + Respond(c, v2, d, ch.response.value, ReadResponse(c.grammar, ch.response.value)).events
  {
  }

  /** A working copy that is the one before or the one left by a draw stays
      within the sound files, and so does a sound that is the one before or
      the drawn one. */
  lemma SoundsKept(before: seq<string>, sound: string, after: seq<string>, sound': string, shuffled: seq<string>, sounds: seq<string>)
    requires Within(before, sounds) && sound in sounds
    requires multiset(shuffled) == multiset(sounds)
    requires after == before || after == Pop(before, shuffled).1
    requires sound' == sound || (Pop(before, shuffled).0.Some? && sound' == Pop(before, shuffled).0.value)
    ensures Within(after, sounds) && sound' in sounds
  {
    PopWithin(before, shuffled, sounds);
  }

  /** The pools' working copies stay within the prompt and sound files
      across an iteration, and the pending turn's sound stays a sound file,
      given shuffles that are permutations of the files. */
  lemma IterationPools(c: Config, v: Vars, d: Draws, prompts: seq<string>, sounds: seq<string>)
    requires RoleSet(c.roles) <= v.imageSeed.Keys
    requires Within(v.prompts, prompts) && Within(v.sounds, sounds) && v.last.sound in sounds
    requires multiset(d.promptShuffle) == multiset(prompts) && multiset(d.soundShuffle) == multiset(sounds)
    ensures var a := Iteration(c, v, d);
      Within(a.v.prompts, prompts) && Within(a.v.sounds, sounds) && a.v.last.sound in sounds
  {
    var a := Iteration(c, v, d);
    IterationSoundDrawn(c, v, d);
    SoundsKept(v.sounds, v.last.sound, a.v.sounds, a.v.last.sound, d.soundShuffle, sounds);
    if v.last.sender !in c.roles {
      IterationStart(c, v, d);
    } else {
      IterationResponse(c, v, d);
      if Generated(c, v, d) == [] {
        assert Choose(c, v, d) == Draw(c, v, d);
        ChooseDrawn(c, v, d, prompts);
      } else {
        ChooseGenerated(c, v, d);
      }
    }
  }

  /** The records of one more turn. */
  lemma RecordsGrow(ms: seq<Message>, m: Message)
    ensures Records(ms + [m]) == Records(ms) + [RecordOf(m)]
  {
    assert (ms + [m])[..|ms|] == ms;
  }

  /** The records of turns with sound files carry sound files. */
  lemma RecordsSounds(ms: seq<Message>, sounds: seq<string>)
    requires forall k :: 0 <= k < |ms| ==> ms[k].sound in sounds
    ensures forall k :: 0 <= k < |Records(ms)| ==> Records(ms)[k].sound in sounds
  {
  }

  // ---------------------------------------------------------------------------
  // The whole program

  /** What holds of the turns published so far: each had a role as sender
      and a fitting selfie, and carries a sound file. */
  ghost predicate History(shown: seq<Message>, roles: seq<string>, seed: map<string, int>, sounds: seq<string>) {
    && WellFormedHistory(shown, roles, seed)
    && forall k :: 0 <= k < |shown| ==> shown[k].sound in sounds
  }

  /** What holds between iterations while the loop runs: things are
      consistent, the pools' working copies are within their files, and the
      pending turn's sound is a sound file. */
  ghost predicate Running(c: Config, v: Vars, shown: seq<Message>, seed: map<string, int>, prompts: seq<string>, sounds: seq<string>) {
    && Consistent(c, v, shown, seed)
    && Within(v.prompts, prompts) && Within(v.sounds, sounds) && v.last.sound in sounds
  }

  /** A step that publishes at most the pending turn, as the iteration
      lemmas state, keeps the loop's invariant: with `shown'` the published
      turns after it, the records it publishes are those of the turns added,
      the history stays as it should, and unless an exception stops the loop
      it goes on running. */
  lemma Carry(c: Config, v: Vars, a: Step, shown: seq<Message>, seed: map<string, int>, prompts: seq<string>, sounds: seq<string>)
    requires Running(c, v, shown, seed, prompts, sounds) && History(shown, c.roles, seed, sounds)
    requires Published(a.events) == [] || (Published(a.events) == [RecordOf(v.last)] && v.last.sender in c.roles)
    requires a.outcome.Accepted? ==> Published(a.events) == [RecordOf(v.last)] && Consistent(c, a.v, shown + [v.last], seed)
    requires a.outcome.Rejected? ==> Published(a.events) == [] && Consistent(c, a.v, shown, seed)
    requires Within(a.v.prompts, prompts) && Within(a.v.sounds, sounds) && a.v.last.sound in sounds
    ensures var shown' := if Published(a.events) == [] then shown else shown + [v.last];
      && Records(shown') == Records(shown) + Published(a.events)
      && History(shown', c.roles, seed, sounds)
      && (!a.outcome.Raised? ==> Running(c, a.v, shown', seed, prompts, sounds))
  {
    if Published(a.events) != [] {
      HistoryGrows(shown, v.last, c.roles, seed);
      RecordsGrow(shown, v.last);
    }
  }

  /** One iteration keeps the loop's invariant. */
  lemma Advance(c: Config, v: Vars, d: Draws, shown: seq<Message>, seed: map<string, int>, prompts: seq<string>, sounds: seq<string>)
    requires Running(c, v, shown, seed, prompts, sounds) && History(shown, c.roles, seed, sounds)
    requires multiset(d.promptShuffle) == multiset(prompts) && multiset(d.soundShuffle) == multiset(sounds)
    ensures var a := Iteration(c, v, d);
      var shown' := if Published(a.events) == [] then shown else shown + [v.last];
      && Records(shown') == Records(shown) + Published(a.events)
      && History(shown', c.roles, seed, sounds)
      && (!a.outcome.Raised? ==> Running(c, a.v, shown', seed, prompts, sounds))
  {
    IterationPublishes(c, v, d);
    IterationKeeps(c, v, d, shown, seed);
    IterationPools(c, v, d, prompts, sounds);
    Carry(c, v, Iteration(c, v, d), shown, seed, prompts, sounds);
  }

  /** The `while True` loop, for as many iterations as there are draws (the
      program runs until it is interrupted) or until an exception stops it.
      Started consistently, with nothing published yet, the message hashes
      it writes are shown correctly and carry sounds from the sound
      directory. */
  method Converse(c: Config, v0: Vars, draws: seq<Draws>, prompts: seq<string>, sounds: seq<string>, ghost seed: map<string, int>)
      returns (events: seq<Event>, error: Option<Error>)
    requires Running(c, v0, [], seed, prompts, sounds)
    requires forall i :: 0 <= i < |draws| ==>
      multiset(draws[i].promptShuffle) == multiset(prompts) && multiset(draws[i].soundShuffle) == multiset(sounds)
    ensures ShownCorrectly(Published(events), c.roles)
    ensures forall k :: 0 <= k < |Published(events)| ==> Published(events)[k].sound in sounds
  {
    var v := v0;
    ghost var shown: seq<Message> := [];
    events := [];
    error := None;
    var i := 0;
    while i < |draws| && error.None?
      invariant i <= |draws|
      invariant Published(events) == Records(shown)
      invariant History(shown, c.roles, seed, sounds)
      invariant error.None? ==> Running(c, v, shown, seed, prompts, sounds)
    {
      var a := Iteration(c, v, draws[i]);
      Advance(c, v, draws[i], shown, seed, prompts, sounds);
      PublishedAppend(events, a.events);
      if Published(a.events) != [] {
        shown := shown + [v.last];
      }
      events := events + a.events;
      v := a.v;
      if a.outcome.Raised? {
        error := Some(a.outcome.error);
      }
      i := i + 1;
    }
    WellFormedShown(shown, c.roles, seed);
    RecordsSounds(shown, sounds);
  }

  /** The setup of `generate` up to the loop: the idle writing hashes, the
      image seeds, the template split and the first turn. A template without
      `{role}` and an empty prompt file raise IndexError; when nothing is
      raised, the loop starts consistently, with the pools' working copies
      within their files and a first sound from the sound directory. */
  method Prepare(s: Settings, o: Opening) returns (log: seq<Event>, c: Config, start: Start, ghost seed: map<string, int>)
    requires |o.seeds| == |s.roles|
    requires multiset(o.promptShuffle) == multiset(WithNewlines(s.prompts))
    requires multiset(o.soundShuffle) == multiset(s.sounds)
    ensures log == IdleFlags(s.roles) && Published(log) == []
    ensures FromTemplate(s.template, s.image).None? ==> start == Failed(IndexError)
    ensures s.prompts == [] ==> start == Failed(IndexError)
    ensures start.Started? ==> c.roles == s.roles && Running(c, start.v, [], seed, WithNewlines(s.prompts), s.sounds)
  {
    log := SetupWriting(s.roles);
    IdleFlagsSpec(s.roles);
    var seedOf := SetupSeeds(s.roles, o.seeds);
    seed := seedOf;
    var g := FromTemplate(s.template, s.image);
    c := Config(s.roles, s.colors, if g.Some? then g.value else Grammar("", "", s.image), s.runLength, s.baseTime, s.letterTime, s.imageTime, s.runTime, s.rapid);
    if g.None? {
      start := Failed(IndexError);
      return;
    }
    start := FirstTurn(s, g.value, o, seedOf);
    FirstTurnSpec(s, g.value, o, seedOf);
    if start.Started? {
      SeedsGrow(seedOf, [], start.v.last);
    }
  }

  /** `generate`: the setup, then the loop. The store first gets every
      role's idle writing hash; a template without `{role}`, an empty prompt
      file, a first prompt without sender or an empty sound directory stop
      the program before the loop. Whatever happens, the message hashes
      written are shown correctly and carry sounds from the sound
      directory. */
  method Generate(s: Settings, o: Opening, draws: seq<Draws>) returns (log: seq<Event>, error: Option<Error>)
    requires |o.seeds| == |s.roles|
    requires multiset(o.promptShuffle) == multiset(WithNewlines(s.prompts))
    requires multiset(o.soundShuffle) == multiset(s.sounds)
    requires forall i :: 0 <= i < |draws| ==>
      multiset(draws[i].promptShuffle) == multiset(WithNewlines(s.prompts)) && multiset(draws[i].soundShuffle) == multiset(s.sounds)
    ensures IdleFlags(s.roles) <= log
    ensures FromTemplate(s.template, s.image).None? ==> log == IdleFlags(s.roles) && error == Some(IndexError)
    ensures s.prompts == [] ==> log == IdleFlags(s.roles) && error == Some(IndexError)
    ensures ShownCorrectly(Published(log), s.roles)
    ensures forall k :: 0 <= k < |Published(log)| ==> Published(log)[k].sound in s.sounds
  {
    var c, start;
    ghost var seed;
    log, c, start, seed := Prepare(s, o);
    if start.Failed? {
      assert ShownCorrectly([], s.roles);
      error := Some(start.error);
      return;
    }
    var events;
    events, error := Converse(c, start.v, draws, WithNewlines(s.prompts), s.sounds, seed);
    Assemble(s.roles, s.sounds, log, s.delay, events);
    log := log + [Sleep(s.delay)] + events;
  }

  /** The log of `generate` once the loop has ended: the idle writing
      hashes, the pause before the loop and the loop's events, with the
      hashes written only by the loop. */
  lemma Assemble(roles: seq<string>, sounds: seq<string>, idle: seq<Event>, delay: real, events: seq<Event>)
    requires idle == IdleFlags(roles) && Published(idle) == []
    requires ShownCorrectly(Published(events), roles)
    requires forall k :: 0 <= k < |Published(events)| ==> Published(events)[k].sound in sounds
    ensures IdleFlags(roles) <= idle + [Sleep(delay)] + events
    ensures ShownCorrectly(Published(idle + [Sleep(delay)] + events), roles)
    ensures forall k :: 0 <= k < |Published(idle + [Sleep(delay)] + events)| ==>
      Published(idle + [Sleep(delay)] + events)[k].sound in sounds
  {
    var setup := idle + [Sleep(delay)];
    assert Published(setup) == [] by {
      PublishedAppend(idle, [Sleep(delay)]);
      assert [Sleep(delay)][..0] == [];
    }
    PublishedAppend(setup, events);
    assert setup[..|idle|] == idle;
    assert Published(setup + events) == Published(events);
  }

  // ---------------------------------------------------------------------------
  // What the published conversation looks like


  /** A role's seed after some turns is its first seed plus its selfies
      among them. */
  lemma {:induction false} SeedsAfterCount(seed: map<string, int>, ms: seq<Message>, role: string)
    requires role in seed
    ensures SeedsAfter(seed, ms)[role] == seed[role] + Selfies(ms, role)
    decreases |ms|
  {
    if ms != [] {
      SeedsAfterCount(seed, ms[..|ms| - 1], role);
    }
  }

  /** A selfie of `role` among the turns counts: there are more selfies of
      it in all the turns than before that one. */
  lemma {:induction false} SelfiesBefore(ms: seq<Message>, i: nat, role: string)
    requires i < |ms| && ms[i].image.Some? && ms[i].sender == role
    ensures Selfies(ms[..i], role) < Selfies(ms, role)
    decreases |ms|
  {
    var init := ms[..|ms| - 1];
    if i < |ms| - 1 {
      assert init[i] == ms[i] && init[..i] == ms[..i];
      SelfiesBefore(init, i, role);
    } else {
      assert ms[..i] == init;
    }
  }

  /** In a well-formed history, an earlier selfie of the last turn's
      sender was drawn from a smaller seed. */
  lemma SelfieSeedsGrow(ms: seq<Message>, i: nat, roles: seq<string>, seed: map<string, int>)
    requires WellFormedHistory(ms, roles, seed) && i < |ms| - 1
    requires ms[i].image.Some? && ms[|ms| - 1].image.Some? && ms[i].sender == ms[|ms| - 1].sender
    ensures ms[i].image.value.seed < ms[|ms| - 1].image.value.seed
  {
    var init := ms[..|ms| - 1];
    var role := ms[i].sender;
    WellFormedTurn(ms, i, roles, seed);
    WellFormedTurn(ms, |ms| - 1, roles, seed);
    SeedsAfterCount(seed, ms[..i], role);
    SeedsAfterCount(seed, init, role);
    assert init[i] == ms[i] && init[..i] == ms[..i];
    SelfiesBefore(init, i, role);
  }

  /** The turns of a well-formed history, as message hashes, are shown
      correctly. */
  lemma {:induction false} WellFormedShown(ms: seq<Message>, roles: seq<string>, seed: map<string, int>)
    requires WellFormedHistory(ms, roles, seed)
    ensures ShownCorrectly(Records(ms), roles)
    decreases |ms|
  {
    if ms != [] {
      var init := ms[..|ms| - 1];
      WellFormedShown(init, roles, seed);
      var rs := Records(ms);
      assert Records(init) == rs[..|ms| - 1];
      WellFormedTurn(ms, |ms| - 1, roles, seed);
      forall i, j | 0 <= i < j < |rs| && rs[i].image.Some? && rs[j].image.Some? && rs[i].sender == rs[j].sender
        ensures rs[i].image.value.seed < rs[j].image.value.seed
      {
        if j == |ms| - 1 {
          SelfieSeedsGrow(ms, i, roles, seed);
        } else {
          assert Records(init)[i] == rs[i] && Records(init)[j] == rs[j];
        }
      }
    }
  }

  /** Each turn of a well-formed history is well-formed given the turns
      before it. */
  lemma {:induction false} WellFormedTurn(ms: seq<Message>, i: nat, roles: seq<string>, seed: map<string, int>)
    requires WellFormedHistory(ms, roles, seed) && i < |ms|
    ensures ms[i].sender in roles && SelfieFits(ms[i], seed, ms[..i])
    decreases |ms|
  {
    var init := ms[..|ms| - 1];
    if i < |ms| - 1 {
      assert init[i] == ms[i] && init[..i] == ms[..i];
      WellFormedTurn(init, i, roles, seed);
    }
  }
}
