/** The older generator, `generate.old.py`: roles take turns at random, the
    prompt grows by a `[SENDER:]` line every iteration, and a message is the
    part of the continuation before the first `[...:]` marker. Messages are
    published at once; notification sounds are popped from a list at a
    random index and the list is reloaded when it runs dry.

    Everything random or external is an input: the role and sound indexes
    (`randint`), the deviation factors (`uniform`), the clock and the text
    generator's output. */
module Legacy {
  import opened Wrappers
  import opened Text
  import opened Numeric
  import opened Store

  /** The placeholder that asks for a selfie. */
  const Placeholder := "[IMAGE]"

  // ---------------------------------------------------------------------------
  // The role marker `\[.*:\]`

  /** From position `i` on, the line holds a `:]` (the `.*:\]` part of the
      pattern: `.` matches anything but a newline). */
  function ClosesOnLine(s: string, i: nat): bool
    decreases |s| - i
  {
    if i + 1 >= |s| then false
    else if s[i] == ':' && s[i + 1] == ']' then true
    else if s[i] == '\n' then false
    else ClosesOnLine(s, i + 1)
  }

  /** `:]` sits at `q` and no newline lies between `i` and `q`. */
  predicate CloseAt(s: string, i: nat, q: nat) {
    i <= q && q + 1 < |s| && s[q] == ':' && s[q + 1] == ']'
    && forall j :: i <= j < q ==> s[j] != '\n'
  }

  /** The scan finds a close exactly when one exists on the line. */
  lemma {:induction false} ClosesOnLineSpec(s: string, i: nat)
    ensures ClosesOnLine(s, i) <==> exists q :: CloseAt(s, i, q)
    decreases |s| - i
  {
    if i + 1 >= |s| {
      forall q ensures !CloseAt(s, i, q) {
      }
    } else if s[i] == ':' && s[i + 1] == ']' {
      assert CloseAt(s, i, i);
    } else if s[i] == '\n' {
      forall q ensures !CloseAt(s, i, q) {
        if i < q {
          assert s[i] == '\n';
        }
      }
    } else {
      ClosesOnLineSpec(s, i + 1);
      forall q | CloseAt(s, i, q) ensures CloseAt(s, i + 1, q) {
      }
      if ClosesOnLine(s, i + 1) {
        var q :| CloseAt(s, i + 1, q);
        assert CloseAt(s, i, q);
      }
    }
  }

  /** A match of `\[.*:\]` starts at `p`. */
  predicate MarkerAt(s: string, p: nat) {
    p < |s| && s[p] == '[' && ClosesOnLine(s, p + 1)
  }

  /** Where `re.finditer` finds its first match, at or after `i`. */
  function FirstMarker(s: string, i: nat): (r: Option<nat>)
    ensures r.Some? ==> i <= r.value < |s| && MarkerAt(s, r.value)
    decreases |s| - i
  {
    if i >= |s| then None
    else if MarkerAt(s, i) then Some(i)
    else FirstMarker(s, i + 1)
  }

  /** No match starts before the first one, and none at all when there is
      no first one. */
  lemma {:induction false} FirstMarkerSpec(s: string, i: nat)
    ensures FirstMarker(s, i).Some? ==> forall j :: i <= j < FirstMarker(s, i).value ==> !MarkerAt(s, j)
    ensures FirstMarker(s, i).None? ==> forall j :: i <= j ==> !MarkerAt(s, j)
    decreases |s| - i
  {
    if i < |s| && !MarkerAt(s, i) {
      FirstMarkerSpec(s, i + 1);
    }
  }

  /** A close found inside a slice is a close of the whole string. */
  lemma {:induction false} ClosesInSlice(s: string, a: nat, b: nat, i: nat)
    requires a <= b <= |s|
    requires ClosesOnLine(s[a..b], i)
    ensures ClosesOnLine(s, a + i)
    decreases b - a - i
  {
    var t := s[a..b];
    assert t[i] == s[a + i] && t[i + 1] == s[a + i + 1];
    if !(t[i] == ':' && t[i + 1] == ']') {
      ClosesInSlice(s, a, b, i + 1);
    }
  }

  /** A marker inside a slice is a marker of the whole string. */
  lemma MarkerInSlice(s: string, a: nat, b: nat, j: nat)
    requires a <= b <= |s| && MarkerAt(s[a..b], j)
    ensures MarkerAt(s, a + j)
  {
    ClosesInSlice(s, a, b, j + 1);
  }

  /** A stretch of a string where no marker starts holds no marker. */
  lemma UnmarkedSlice(s: string, a: nat, b: nat)
    requires a <= b <= |s|
    requires forall j :: a <= j < b ==> !MarkerAt(s, j)
    ensures forall j :: !MarkerAt(s[a..b], j)
  {
    forall j | MarkerAt(s[a..b], j) ensures false {
      MarkerInSlice(s, a, b, j);
    }
  }

  /** The message of a response: everything before the first marker,
      stripped (`response[:matches[0].start()].strip()`); nothing when the
      response has no marker. */
  function Message(response: string): (r: Option<string>)
    ensures r.None? <==> FirstMarker(response, 0).None?
  {
    match FirstMarker(response, 0)
    case None => None
    case Some(p) => Some(Strip(response[..p]))
  }

  /** Where the stripped text sits in the text it was cut from. */
  lemma StripSlice(s: string) returns (i: nat)
    ensures i + |Strip(s)| <= |s| && Strip(s) == s[i..i + |Strip(s)|]
  {
    StripWithSpec(s, IsSpace);
    i :| TrimmedAt(s, Strip(s), IsSpace, i);
  }

  /** Stripping a text without markers leaves a text without markers. */
  lemma StripUnmarked(s: string)
    requires forall j :: !MarkerAt(s, j)
    ensures forall j :: !MarkerAt(Strip(s), j)
  {
    var i := StripSlice(s);
    UnmarkedSlice(s, i, i + |Strip(s)|);
  }

  /** A message never holds a whole role marker: it was cut at the first
      one, and stripping only shortens it. */
  lemma MessageUnmarked(response: string)
    requires Message(response).Some?
    ensures forall j :: !MarkerAt(Message(response).value, j)
  {
    var p := FirstMarker(response, 0).value;
    FirstMarkerSpec(response, 0);
    UnmarkedSlice(response, 0, p);
    assert response[..p] == response[0..p];
    StripUnmarked(response[..p]);
  }

  // ---------------------------------------------------------------------------
  // The setup

  /** One more role in the layout: the roles whose seed was final stay
      final, except one that the new role repeats, and the new role's seed
      is final. */
  lemma LayoutStep(roles: seq<string>, i: nat, seedOf: map<string, int>)
    requires i < |roles|
    requires forall k :: 0 <= k < i && roles[k] !in roles[k + 1..i] ==> roles[k] in seedOf && seedOf[roles[k]] == 100 * k
    ensures forall k :: 0 <= k < i + 1 && roles[k] !in roles[k + 1..i + 1] ==> seedOf[roles[i] := 100 * i][roles[k]] == 100 * k
  {
    forall k | 0 <= k < i + 1 && roles[k] !in roles[k + 1..i + 1] ensures seedOf[roles[i] := 100 * i][roles[k]] == 100 * k {
      if k < i {
        assert roles[i] == roles[k + 1..i + 1][i - k - 1];
        assert roles[k + 1..i] == roles[k + 1..i + 1][..i - k - 1];
        assert roles[k] !in roles[k + 1..i];
      }
    }
  }

  /** The seed layout: the roles, in order, get seeds 0, 100, 200, ...; a
      role listed more than once keeps the seed of its last occurrence. */
  method SeedLayout(roles: seq<string>) returns (seedOf: map<string, int>)
    ensures seedOf.Keys == RoleSet(roles)
    ensures forall k :: 0 <= k < |roles| && roles[k] !in roles[k + 1..] ==> roles[k] in seedOf && seedOf[roles[k]] == 100 * k
  {
    seedOf := map[];
    var seed := 0;
    for i := 0 to |roles|
      invariant seed == 100 * i
      invariant seedOf.Keys == RoleSet(roles[..i])
      invariant forall k :: 0 <= k < i && roles[k] !in roles[k + 1..i] ==> roles[k] in seedOf && seedOf[roles[k]] == 100 * k
    {
      assert RoleSet(roles[..i + 1]) == RoleSet(roles[..i]) + {roles[i]};
      LayoutStep(roles, i, seedOf);
      seedOf := seedOf[roles[i] := seed];
      seed := seed + 100;
    }
    assert roles[..|roles|] == roles;
  }

  // ---------------------------------------------------------------------------
  // One pass of the loop

  /** The command-line options the loop reads, and the sound paths the glob
      found (`glob` is read again, with the same result, on every reload). */
  datatype Config = Config(
    roles: seq<string>, colors: seq<string>,
    baseTime: real, letterTime: real, imageTime: real, readFactor: real,
    sounds: seq<string>)

  /** The variables the loop updates: the prompt, the sender of the previous
      pass, when the pending generation started (0 while none is), how long
      the last message took to write, each role's next image seed, and the
      sound paths not yet used in this round. */
  datatype Vars = Vars(
    prompt: string, sender: string, start: real, writeDuration: real,
    seedOf: map<string, int>, paths: seq<string>)

  /** What one pass takes from outside: the role draw, the read deviation,
      the clock before generation, the generator's output, the sound draw,
      the clock after generation and the write deviation. A draw picks the
      index `draw % n` of a list of length `n`, so every index can be drawn. */
  datatype Draws = Draws(
    roleDraw: nat, readDeviation: real, now: real, generated: string,
    soundDraw: nat, later: real, writeDeviation: real)

  /** The exceptions that end the program: `randint(0, -1)` on an empty list
      raises ValueError; a missing colour raises IndexError. */
  datatype Fault = ValueError | IndexError

  /** Where a pass leaves things: the variables, what it wrote to the store
      (and slept), and the exception it raised, if any. */
  datatype Step = Step(v: Vars, events: seq<Event>, fault: Option<Fault>)

  /** The prompt line that asks the generator for `sender`'s next message. */
  function Cue(sender: string): string {
    "\n[" + Upper(sender) + ":]"
  }

  /** The prompt after a message: `[SENDER:] text`. */
  function Quote(sender: string, text: string): string {
    "[" + Upper(sender) + ":] " + text
  }

  /** `sound_paths.pop(i)`. */
  function RemoveAt<T>(xs: seq<T>, i: nat): (r: seq<T>)
    requires i < |xs|
    ensures |r| == |xs| - 1
    ensures multiset(r) + multiset{xs[i]} == multiset(xs)
  {
    assert xs == xs[..i] + [xs[i]] + xs[i + 1..];
    xs[..i] + xs[i + 1..]
  }

  /** Taking a sound: the path at the drawn index, and the list without it,
      reloaded from the source when that leaves it empty. */
  function TakeSound(paths: seq<string>, source: seq<string>, draw: nat): (r: (string, seq<string>))
    requires paths != []
    ensures r.0 in paths
    ensures |r.1| == if |paths| == 1 then |source| else |paths| - 1
  {
    var i := draw % |paths|;
    var rest := RemoveAt(paths, i);
    (paths[i], if rest == [] then source else rest)
  }

  /** The read pause: the last writing time scaled by the read factor, the
      deviation, and 0.2 when the same role writes again. */
  function ReadWait(c: Config, v: Vars, sender: string, deviation: real): real {
    v.writeDuration * c.readFactor * deviation * (if v.sender == sender then 0.2 else 1.0)
  }

  /** The minimum writing time of a message. */
  function MinDuration(c: Config, text: string, selfie: bool): real {
    c.baseTime + |text| as real * c.letterTime + (if selfie then c.imageTime else 0.0)
  }

  /** The role drawn to write next. */
  function Sender(c: Config, d: Draws): string
    requires c.roles != []
  {
    c.roles[d.roleDraw % |c.roles|]
  }

  /** The start of a pass: the drawn role becomes the sender, the clock is
      read unless a generation is already pending, and the prompt gets the
      role's cue line. */
  function Begin(c: Config, v: Vars, d: Draws): Vars
    requires c.roles != []
  {
    v.(prompt := v.prompt + Cue(Sender(c, d)), sender := Sender(c, d),
       start := if v.start != 0.0 then v.start else d.now)
  }

  /** What a pass writes before generating: the read pause, then the drawn
      role is set writing. */
  function Opening(c: Config, v: Vars, d: Draws): seq<Event>
    requires c.roles != []
  {
    [Sleep(ReadWait(c, v, Sender(c, d), d.readDeviation)), SetWriting(Sender(c, d), Flag(Sender(c, d), 1))]
  }

  /** The time the continuation took, scaled by the write deviation. */
  function WriteDuration(c: Config, v: Vars, d: Draws): real
    requires c.roles != []
  {
    (d.later - Begin(c, v, d).start) * d.writeDeviation
  }

  /** The message a pass publishes: the selfie of the sender at its current
      seed when the text asks for one, and the sound. */
  function Outgoing(c: Config, v: Vars, d: Draws, selfie: bool, shown: string, sound: string): Record
    requires c.roles != []
    requires forall role :: role in c.roles ==> role in v.seedOf
  {
    var sender := Sender(c, d);
    Record(sender, shown,
           if selfie then Some(Picture(sender, v.seedOf[sender])) else None,
           if selfie then "selfie of " + sender else "",
           sound)
  }

  /** What a pass writes after generating: the write pause, the message,
      the sender set idle. */
  function Sent(c: Config, v: Vars, d: Draws, selfie: bool, shown: string, sound: string): seq<Event>
    requires c.roles != []
    requires forall role :: role in c.roles ==> role in v.seedOf
  {
    [Sleep(AtLeastZero(MinDuration(c, shown, selfie) - WriteDuration(c, v, d))),
     Publish(Outgoing(c, v, d, selfie, shown, sound)),
     SetWriting(Sender(c, d), Flag(Sender(c, d), 0))]
  }

  /** The rest of a pass once the continuation gave the message `text`,
      which asks for a selfie when `selfie` holds and is shown as `shown`:
      the next prompt, the seeds, the sound, and the events. */
  function Deliver(c: Config, v: Vars, d: Draws, text: string, selfie: bool, shown: string): Step
    requires c.roles != []
    requires forall role :: role in c.roles ==> role in v.seedOf
  {
    var sender := Sender(c, d);
    var seedOf := if selfie then v.seedOf[sender := v.seedOf[sender] + 1] else v.seedOf;
    if v.paths == [] then
      Step(Begin(c, v, d).(prompt := Quote(sender, text), seedOf := seedOf), Opening(c, v, d), Some(ValueError))
    else
      var (sound, paths) := TakeSound(v.paths, c.sounds, d.soundDraw);
      Step(Vars(Quote(sender, text), sender, 0.0, WriteDuration(c, v, d), seedOf, paths),
           Opening(c, v, d) + Sent(c, v, d, selfie, shown, sound),
           if d.roleDraw % |c.roles| < |c.colors| then None else Some(IndexError))
  }

  /** The text a message is shown with: a selfie request loses the
      placeholder and its doubled spaces. */
  function Shown(text: string): string {
    if Contains(text, Placeholder) then DisplayText(text, Placeholder) else text
  }

  /** One pass of the `while True` loop. With no roles, drawing one raises
      before anything happens. */
  function Iteration(c: Config, v: Vars, d: Draws): (r: Step)
    requires forall role :: role in c.roles ==> role in v.seedOf
    ensures forall role :: role in c.roles ==> role in r.v.seedOf
    ensures r.fault == Some(ValueError) ==> c.roles == [] || v.paths == []
  {
    if c.roles == [] then Step(v, [], Some(ValueError))
    else
      match Message(RemoveAll(d.generated, Begin(c, v, d).prompt))
      case None => Step(Begin(c, v, d), Opening(c, v, d), None)
      case Some(text) => Deliver(c, v, d, text, Contains(text, Placeholder), Shown(text))
  }


  /** The number of messages with a selfie of `role`. */
  function Pictures(records: seq<Record>, role: string): nat {
    if records == [] then 0
    else
      var r := records[|records| - 1];
      Pictures(records[..|records| - 1], role) + (if r.image.Some? && r.sender == role then 1 else 0)
  }

  /** Counting selfies over two stretches of messages adds up. */
  lemma {:induction false} PicturesAppend(a: seq<Record>, b: seq<Record>, role: string)
    ensures Pictures(a + b, role) == Pictures(a, role) + Pictures(b, role)
    decreases |b|
  {
    if b == [] {
      assert a + b == a;
    } else {
      assert (a + b)[..|a + b| - 1] == a + b[..|b| - 1];
      PicturesAppend(a, b[..|b| - 1], role);
    }
  }

  /** The sound list between passes: within the source, and never empty
      while the source is not. */
  predicate SoundsReady(paths: seq<string>, source: seq<string>) {
    multiset(paths) <= multiset(source) && (source != [] ==> paths != [])
  }

  /** Taking a sound removes exactly the path it hands out, and reloads the
      full source when that was the last one; the list stays ready. */
  lemma TakeSoundSpec(paths: seq<string>, source: seq<string>, draw: nat)
    requires paths != [] && SoundsReady(paths, source)
    ensures TakeSound(paths, source, draw).0 in paths
    ensures |paths| > 1 ==> multiset(TakeSound(paths, source, draw).1) + multiset{TakeSound(paths, source, draw).0} == multiset(paths)
    ensures |paths| == 1 ==> TakeSound(paths, source, draw).1 == source
    ensures SoundsReady(TakeSound(paths, source, draw).1, source)
  {
    var i := draw % |paths|;
    var rest := RemoveAt(paths, i);
    assert multiset(rest) <= multiset(paths);
    if rest != [] {
      assert |multiset(rest)| == |rest|;
    }
  }

  /** A pass whose continuation holds no marker sends nothing and leaves the
      seeds and the sounds alone; the drawn role is left writing, and the
      prompt keeps the new `[SENDER:]` line. */
  lemma IterationWithoutMessage(c: Config, v: Vars, d: Draws)
    requires forall role :: role in c.roles ==> role in v.seedOf
    requires c.roles != []
    requires Message(RemoveAll(d.generated, v.prompt + Cue(Sender(c, d)))).None?
    ensures var a := Iteration(c, v, d);
      && a.fault.None?
      && a.v.prompt == v.prompt + Cue(Sender(c, d))
      && a.v.seedOf == v.seedOf && a.v.paths == v.paths && a.v.writeDuration == v.writeDuration
      && Published(a.events) == []
      && Flags(a.events) == map[Sender(c, d) := Flag(Sender(c, d), 1)]
  {
    var sender := Sender(c, d);
    var a := Iteration(c, v, d);
    assert a.events == [Sleep(ReadWait(c, v, sender, d.readDeviation)), SetWriting(sender, Flag(sender, 1))];
    assert a.events[..1] == [Sleep(ReadWait(c, v, sender, d.readDeviation))];
    assert a.events[..1][..0] == [];
    assert Flags(a.events[..1]) == map[];
  }

  /** The events of a pass that sends a message: the read pause, the drawn
      role set writing, the write pause, the message, the role set idle. */
  lemma SentLog(readWait: real, sender: string, wait: real, record: Record)
    ensures var log := [Sleep(readWait), SetWriting(sender, Flag(sender, 1))]
                       + [Sleep(wait), Publish(record), SetWriting(sender, Flag(sender, 0))];
      && Published(log) == [record]
      && Flags(log) == map[sender := Flag(sender, 0)]
      && Sleeps(log) == [readWait, wait]
  {
    var e0, e1, e2, e3, e4 := Sleep(readWait), SetWriting(sender, Flag(sender, 1)), Sleep(wait), Publish(record), SetWriting(sender, Flag(sender, 0));
    Extend([], e0);
    assert [] + [e0] == [e0];
    Extend([e0], e1);
    assert [e0] + [e1] == [e0, e1];
    Extend([e0, e1], e2);
    assert [e0, e1] + [e2] == [e0, e1, e2];
    Extend([e0, e1, e2], e3);
    assert [e0, e1, e2] + [e3] == [e0, e1, e2, e3];
    Extend([e0, e1, e2, e3], e4);
    assert [e0, e1] + [e2, e3, e4] == [e0, e1, e2, e3] + [e4];
  }

  /** Delivering `text` with no sounds at all: the prompt becomes
      `[SENDER:] text` and the pop raises before anything is published. */
  lemma DeliverWithoutSounds(c: Config, v: Vars, d: Draws, text: string, selfie: bool, shown: string)
    requires forall role :: role in c.roles ==> role in v.seedOf
    requires c.roles != [] && SoundsReady(v.paths, c.sounds) && c.sounds == []
    ensures var a := Deliver(c, v, d, text, selfie, shown);
      && a.v.prompt == Quote(Sender(c, d), text)
      && a.fault == Some(ValueError)
      && Published(a.events) == []
  {
    var a := Deliver(c, v, d, text, selfie, shown);
    var opening := Opening(c, v, d);
    assert v.paths == [];
    assert a.events == opening;
    assert opening[..1][..0] == [];
  }

  /** The events of a pass that sends `Outgoing(...)`: that message alone
      is published, the sender ends idle, and the pass sleeps twice. */
  lemma PassLog(c: Config, v: Vars, d: Draws, selfie: bool, shown: string, sound: string)
    requires forall role :: role in c.roles ==> role in v.seedOf
    requires c.roles != []
    ensures Published(Opening(c, v, d) + Sent(c, v, d, selfie, shown, sound)) == [Outgoing(c, v, d, selfie, shown, sound)]
    ensures Flags(Opening(c, v, d) + Sent(c, v, d, selfie, shown, sound)) == map[Sender(c, d) := Flag(Sender(c, d), 0)]
    ensures Sleeps(Opening(c, v, d) + Sent(c, v, d, selfie, shown, sound)) ==
      [ReadWait(c, v, Sender(c, d), d.readDeviation), AtLeastZero(MinDuration(c, shown, selfie) - WriteDuration(c, v, d))]
  {
    SentLog(ReadWait(c, v, Sender(c, d), d.readDeviation), Sender(c, d),
            AtLeastZero(MinDuration(c, shown, selfie) - WriteDuration(c, v, d)), Outgoing(c, v, d, selfie, shown, sound));
  }

  /** Delivering `text` with sounds sends one message from the drawn role,
      with the shown text and a sound still in the list, and leaves the role
      idle. */
  lemma DeliverSends(c: Config, v: Vars, d: Draws, text: string, selfie: bool, shown: string)
    requires forall role :: role in c.roles ==> role in v.seedOf
    requires c.roles != [] && SoundsReady(v.paths, c.sounds) && c.sounds != []
    ensures var a := Deliver(c, v, d, text, selfie, shown);
      && Published(a.events) == [Outgoing(c, v, d, selfie, shown, TakeSound(v.paths, c.sounds, d.soundDraw).0)]
      && Published(a.events)[0].sender == Sender(c, d)
      && Published(a.events)[0].text == shown
      && Published(a.events)[0].sound in v.paths
      && Flags(a.events) == map[Sender(c, d) := Flag(Sender(c, d), 0)]
  {
    assert v.paths != [];
    var sound := TakeSound(v.paths, c.sounds, d.soundDraw).0;
    assert Deliver(c, v, d, text, selfie, shown).events == Opening(c, v, d) + Sent(c, v, d, selfie, shown, sound);
    PassLog(c, v, d, selfie, shown, sound);
    TakeSoundSpec(v.paths, c.sounds, d.soundDraw);
  }

  /** After delivering `text` with sounds the prompt is `[SENDER:] text`, no
      generation is pending, the sound list stays ready, and the pass fails
      only for a missing colour. */
  lemma DeliverState(c: Config, v: Vars, d: Draws, text: string, selfie: bool, shown: string)
    requires forall role :: role in c.roles ==> role in v.seedOf
    requires c.roles != [] && SoundsReady(v.paths, c.sounds) && c.sounds != []
    ensures var a := Deliver(c, v, d, text, selfie, shown);
      && a.v.prompt == Quote(Sender(c, d), text)
      && a.v.sender == Sender(c, d)
      && a.v.start == 0.0
      && SoundsReady(a.v.paths, c.sounds)
      && (a.fault.None? <==> d.roleDraw % |c.roles| < |c.colors|)
      && a.fault != Some(ValueError)
  {
    assert v.paths != [];
    TakeSoundSpec(v.paths, c.sounds, d.soundDraw);
  }

  /** A pass whose continuation holds a message delivers it, selfie or not
      as the placeholder says. */
  lemma IterationWithMessage(c: Config, v: Vars, d: Draws, text: string)
    requires forall role :: role in c.roles ==> role in v.seedOf
    requires c.roles != []
    requires Message(RemoveAll(d.generated, v.prompt + Cue(Sender(c, d)))) == Some(text)
    ensures Iteration(c, v, d) == Deliver(c, v, d, text, Contains(text, Placeholder), Shown(text))
  {
  }

  /** Delivering `text` with sounds sleeps first for the read pause, then
      for whatever the generation left of the message's minimum writing
      time, never a negative time. */
  lemma DeliverWaits(c: Config, v: Vars, d: Draws, text: string, selfie: bool, shown: string)
    requires forall role :: role in c.roles ==> role in v.seedOf
    requires c.roles != [] && SoundsReady(v.paths, c.sounds) && c.sounds != []
    ensures var a := Deliver(c, v, d, text, selfie, shown);
      && |Sleeps(a.events)| == 2
      && Sleeps(a.events)[0] == ReadWait(c, v, Sender(c, d), d.readDeviation)
      && Sleeps(a.events)[1] >= 0.0
      && Sleeps(a.events)[1] >= MinDuration(c, shown, selfie) - a.v.writeDuration
      && (Sleeps(a.events)[1] == 0.0 || Sleeps(a.events)[1] == MinDuration(c, shown, selfie) - a.v.writeDuration)
  {
    assert v.paths != [];
    var sound := TakeSound(v.paths, c.sounds, d.soundDraw).0;
    assert Deliver(c, v, d, text, selfie, shown).events == Opening(c, v, d) + Sent(c, v, d, selfie, shown, sound);
    PassLog(c, v, d, selfie, shown, sound);
  }

  /** The same role drawn twice in a row reads for a fifth of the time a
      different role would. */
  lemma ReadWaitRepeat(c: Config, v: Vars, sender: string, other: string, deviation: real)
    requires v.sender == sender && other != sender
    ensures ReadWait(c, v, sender, deviation) == 0.2 * ReadWait(c, v, other, deviation)
  {
  }

  // ---------------------------------------------------------------------------
  // The loop

  /** The messages published so far, against the seeds the loop started
      from: each was sent by a role, with a sound from the sound directory,
      a selfie of its sender drawn from the sender's first seed moved on by
      its earlier selfies, and the matching caption. */
  predicate Drawn(rs: seq<Record>, c: Config, seed0: map<string, int>) {
    forall k :: 0 <= k < |rs| ==>
      && rs[k].sender in c.roles && rs[k].sender in seed0
      && rs[k].sound in c.sounds
      && rs[k].alt == (if rs[k].image.Some? then "selfie of " + rs[k].sender else "")
      && (rs[k].image.Some? ==> rs[k].image.value == Picture(rs[k].sender, seed0[rs[k].sender] + Pictures(rs[..k], rs[k].sender)))
  }

  /** What holds between passes: every role has a seed, moved on from its
      first one by its selfies so far, and the sound list is ready. */
  predicate Running(c: Config, v: Vars, rs: seq<Record>, seed0: map<string, int>) {
    && (forall role :: role in c.roles ==> role in v.seedOf && role in seed0 && v.seedOf[role] == seed0[role] + Pictures(rs, role))
    && SoundsReady(v.paths, c.sounds)
  }

  /** What a pass `a` from `v` keeps, given the messages `rs` before it: it
      publishes at most one message, the messages stay drawn correctly, and
      the loop goes on running unless ValueError was raised, which happens
      only with no roles or no sounds. */
  predicate Keeps(c: Config, a: Step, rs: seq<Record>, seed0: map<string, int>) {
    && |Published(a.events)| <= 1
    && Drawn(rs + Published(a.events), c, seed0)
    && (a.fault != Some(ValueError) ==> Running(c, a.v, rs + Published(a.events), seed0))
    && (a.fault == Some(ValueError) ==> c.roles == [] || c.sounds == [])
  }

  /** One more message counts as a selfie of its sender or not at all. */
  lemma PicturesGrow(rs: seq<Record>, r: Record, role: string)
    ensures Pictures(rs + [r], role) == Pictures(rs, role) + (if r.image.Some? && r.sender == role then 1 else 0)
  {
    assert (rs + [r])[..|rs|] == rs;
  }

  /** A message drawn correctly after `rs` extends them correctly. */
  lemma DrawnGrows(rs: seq<Record>, r: Record, c: Config, seed0: map<string, int>)
    requires Drawn(rs, c, seed0)
    requires r.sender in c.roles && r.sender in seed0 && r.sound in c.sounds
    requires r.alt == (if r.image.Some? then "selfie of " + r.sender else "")
    requires r.image.Some? ==> r.image.value == Picture(r.sender, seed0[r.sender] + Pictures(rs, r.sender))
    ensures Drawn(rs + [r], c, seed0)
  {
    var rs' := rs + [r];
    forall k | 0 <= k < |rs'|
      ensures rs'[k].sender in c.roles && rs'[k].sender in seed0 && rs'[k].sound in c.sounds
      ensures rs'[k].alt == (if rs'[k].image.Some? then "selfie of " + rs'[k].sender else "")
      ensures rs'[k].image.Some? ==> rs'[k].image.value == Picture(rs'[k].sender, seed0[rs'[k].sender] + Pictures(rs'[..k], rs'[k].sender))
    {
      if k < |rs| {
        assert rs'[k] == rs[k] && rs'[..k] == rs[..k];
      } else {
        assert rs'[..k] == rs;
      }
    }
  }

  /** A sound in a ready list is a sound file. */
  lemma ReadySound(paths: seq<string>, source: seq<string>, sound: string)
    requires SoundsReady(paths, source) && sound in paths
    ensures sound in source
  {
    assert sound in multiset(paths);
  }

  /** A pass that finds no message keeps the loop running. */
  lemma NoMessageKeeps(c: Config, v: Vars, d: Draws, rs: seq<Record>, seed0: map<string, int>)
    requires c.roles != [] && Running(c, v, rs, seed0) && Drawn(rs, c, seed0)
    ensures Keeps(c, Step(Begin(c, v, d), Opening(c, v, d), None), rs, seed0)
  {
    var opening := Opening(c, v, d);
    assert opening[..1][..0] == [];
    assert Published(opening) == [];
    assert rs + [] == rs;
  }

  /** Delivering a message keeps the loop's invariant. */
  lemma DeliverKeeps(c: Config, v: Vars, d: Draws, text: string, selfie: bool, shown: string, rs: seq<Record>, seed0: map<string, int>)
    requires c.roles != [] && Running(c, v, rs, seed0) && Drawn(rs, c, seed0)
    ensures Keeps(c, Deliver(c, v, d, text, selfie, shown), rs, seed0)
  {
    if c.sounds == [] {
      DeliverWithoutSounds(c, v, d, text, selfie, shown);
      assert rs + [] == rs;
    } else {
      SendingKeeps(c, v, d, text, selfie, shown, rs, seed0);
    }
  }

  /** Delivering a message with a sound to hand keeps the loop's invariant:
      the sent record joins the history, and its selfie moves its sender's
      seed on. */
  lemma SendingKeeps(c: Config, v: Vars, d: Draws, text: string, selfie: bool, shown: string, rs: seq<Record>, seed0: map<string, int>)
    requires c.roles != [] && c.sounds != [] && Running(c, v, rs, seed0) && Drawn(rs, c, seed0)
    ensures Keeps(c, Deliver(c, v, d, text, selfie, shown), rs, seed0)
  {
    var a := Deliver(c, v, d, text, selfie, shown);
    DeliverSends(c, v, d, text, selfie, shown);
    DeliverState(c, v, d, text, selfie, shown);
    var r := Published(a.events)[0];
    ReadySound(v.paths, c.sounds, r.sound);
    DrawnGrows(rs, r, c, seed0);
    forall role | role in c.roles
      ensures role in a.v.seedOf && a.v.seedOf[role] == seed0[role] + Pictures(rs + [r], role)
    {
      PicturesGrow(rs, r, role);
    }
  }

  /** One pass keeps the loop's invariant. */
  lemma Advance(c: Config, v: Vars, d: Draws, rs: seq<Record>, seed0: map<string, int>)
    requires Running(c, v, rs, seed0) && Drawn(rs, c, seed0)
    ensures Keeps(c, Iteration(c, v, d), rs, seed0)
  {
    if c.roles == [] {
      assert rs + [] == rs;
    } else {
      match Message(RemoveAll(d.generated, Begin(c, v, d).prompt))
      case None =>
        NoMessageKeeps(c, v, d, rs, seed0);
      case Some(text) =>
        IterationWithMessage(c, v, d, text);
        DeliverKeeps(c, v, d, text, Contains(text, Placeholder), Shown(text), rs, seed0);
    }
  }

  /** The `while True` loop, for as many passes as there are draws (the
      program runs until it is interrupted) or until an exception stops it.
      At most one message per pass; every message is drawn correctly
      against the first seeds; the seeds move on by the selfies sent; and
      ValueError stops it only with no roles or no sounds. */
  method Chatter(c: Config, v0: Vars, draws: seq<Draws>) returns (v: Vars, events: seq<Event>, fault: Option<Fault>)
    requires Running(c, v0, [], v0.seedOf)
    ensures |Published(events)| <= |draws|
    ensures Drawn(Published(events), c, v0.seedOf)
    ensures fault != Some(ValueError) ==> Running(c, v, Published(events), v0.seedOf)
    ensures fault == Some(ValueError) ==> c.roles == [] || c.sounds == []
  {
    v := v0;
    events := [];
    fault := None;
    var i := 0;
    while i < |draws| && fault.None?
      invariant i <= |draws|
      invariant |Published(events)| <= i
      invariant Drawn(Published(events), c, v0.seedOf)
      invariant fault != Some(ValueError) ==> Running(c, v, Published(events), v0.seedOf)
      invariant fault == Some(ValueError) ==> c.roles == [] || c.sounds == []
    {
      var a := Iteration(c, v, draws[i]);
      Advance(c, v, draws[i], Published(events), v0.seedOf);
      PublishedAppend(events, a.events);
      events := events + a.events;
      v := a.v;
      fault := a.fault;
      i := i + 1;
    }
  }

  /** Selfies of a role never get fewer as the messages go on, and a selfie
      of it adds one. */
  lemma PicturesPrefix(rs: seq<Record>, i: nat, j: nat, role: string)
    requires i < j <= |rs| && rs[i].image.Some? && rs[i].sender == role
    ensures Pictures(rs[..i], role) < Pictures(rs[..j], role)
  {
    assert rs[..j] == rs[..i] + rs[i..j];
    PicturesAppend(rs[..i], rs[i..j], role);
    assert rs[i..j] == [rs[i]] + rs[i + 1..j];
    PicturesAppend([rs[i]], rs[i + 1..j], role);
    assert [rs[i]][..0] == [];
  }

  /** Messages drawn correctly are shown correctly: in particular no two
      selfies of a role come from the same seed. */
  lemma DrawnShown(rs: seq<Record>, c: Config, seed0: map<string, int>)
    requires Drawn(rs, c, seed0)
    ensures ShownCorrectly(rs, c.roles)
  {
    forall i, j | 0 <= i < j < |rs| && rs[i].image.Some? && rs[j].image.Some? && rs[i].sender == rs[j].sender
      ensures rs[i].image.value.seed < rs[j].image.value.seed
    {
      PicturesPrefix(rs, i, j, rs[i].sender);
    }
  }

  /** The selfies with seeds a hundred apart: the selfie of the role at
      position `j` (its last occurrence) that follows `n` earlier selfies of
      it comes from seed `100 * j + n`. */
  predicate SeedsApart(rs: seq<Record>, roles: seq<string>) {
    forall k, j ::
      (0 <= k < |rs| && 0 <= j < |roles| && rs[k].image.Some? && roles[j] == rs[k].sender && roles[j] !in roles[j + 1..]) ==>
        rs[k].image.value.seed == 100 * j + Pictures(rs[..k], roles[j])
  }

  /** Messages drawn correctly from seeds laid out a hundred apart have
      their selfies' seeds a hundred apart. */
  lemma DrawnSeeds(rs: seq<Record>, c: Config, seedOf: map<string, int>)
    requires Drawn(rs, c, seedOf)
    requires forall j :: 0 <= j < |c.roles| && c.roles[j] !in c.roles[j + 1..] ==> c.roles[j] in seedOf && seedOf[c.roles[j]] == 100 * j
    ensures SeedsApart(rs, c.roles)
  {
  }

  /** The loop starts running from the laid-out seeds and the whole sound
      directory, with nothing published. */
  lemma Start(c: Config, prompt: string, seedOf: map<string, int>)
    requires seedOf.Keys == RoleSet(c.roles)
    ensures Running(c, Vars(prompt, "", 0.0, 0.0, seedOf, c.sounds), [], seedOf)
  {
    forall role | role in c.roles
      ensures role in seedOf
    {
      assert role in RoleSet(c.roles);
    }
  }

  /** The setup followed by the loop's events: every role starts idle, and
      the loop's messages, drawn correctly from seeds laid out a hundred
      apart, are shown correctly, carry sound files and have their selfies'
      seeds a hundred apart. */
  lemma Conclude(c: Config, events: seq<Event>, seedOf: map<string, int>, log: seq<Event>)
    requires Drawn(Published(events), c, seedOf)
    requires forall j :: 0 <= j < |c.roles| && c.roles[j] !in c.roles[j + 1..] ==> c.roles[j] in seedOf && seedOf[c.roles[j]] == 100 * j
    requires log == IdleFlags(c.roles) + events
    ensures IdleFlags(c.roles) <= log
    ensures ShownCorrectly(Published(log), c.roles)
    ensures forall k :: 0 <= k < |Published(log)| ==> Published(log)[k].sound in c.sounds
    ensures SeedsApart(Published(log), c.roles)
  {
    IdleFlagsSpec(c.roles);
    PublishedAppend(IdleFlags(c.roles), events);
    assert Published(log) == Published(events);
    DrawnShown(Published(events), c, seedOf);
    DrawnSeeds(Published(events), c, seedOf);
  }

  /** `generate`: the idle writing hashes, the image seeds a hundred apart,
      the whole sound directory, then the loop from an empty sender and no
      pending generation. Every role starts idle; the messages are shown
      correctly and carry sound files; the `k`-th selfie of the role at
      position `j` (its last occurrence) comes from seed `100 * j + k`; and
      ValueError stops the program only with no roles or no sounds. */
  method Generate(c: Config, prompt: string, draws: seq<Draws>) returns (log: seq<Event>, fault: Option<Fault>)
    ensures IdleFlags(c.roles) <= log
    ensures ShownCorrectly(Published(log), c.roles)
    ensures forall k :: 0 <= k < |Published(log)| ==> Published(log)[k].sound in c.sounds
    ensures SeedsApart(Published(log), c.roles)
    ensures fault == Some(ValueError) ==> c.roles == [] || c.sounds == []
  {
    log := SetupWriting(c.roles);
    var seedOf := SeedLayout(c.roles);
    Start(c, prompt, seedOf);
    var v, events;
    v, events, fault := Chatter(c, Vars(prompt, "", 0.0, 0.0, seedOf, c.sounds), draws);
    Conclude(c, events, seedOf, log + events);
    log := log + events;
  }
}
