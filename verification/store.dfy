/** The key-value store the generator scripts write to, seen as the log of
    what they write: the per-role `writing:{role}` hashes, the message hashes
    the site reads, and (for the timing rules) the sleeps between them. */
module Store {
  import opened Wrappers

  /** A generated selfie, identified by the role whose image generator drew
      it and the seed it was drawn from (the JPEG bytes are left out). */
  datatype Picture = Picture(role: string, seed: int)

  /** The fields of one message hash. `sound` names the notification sound
      whose bytes are stored. */
  datatype Record = Record(sender: string, text: string, image: Option<Picture>, alt: string, sound: string)

  /** The contents of a `writing:{role}` hash. */
  datatype Flag = Flag(writer: string, state: int)

  datatype Event =
    | SetWriting(role: string, flag: Flag)
    | Publish(record: Record)
    | Sleep(seconds: real)

  /** The message hashes written, in order. */
  function Published(log: seq<Event>): (r: seq<Record>)
    ensures |r| <= |log|
  {
    if log == [] then []
    else
      var e := log[|log| - 1];
      Published(log[..|log| - 1]) + (if e.Publish? then [e.record] else [])
  }

  /** Appending to the log appends to what it publishes. */
  lemma {:induction false} PublishedAppend(a: seq<Event>, b: seq<Event>)
    ensures Published(a + b) == Published(a) + Published(b)
    decreases |b|
  {
    if b == [] {
      assert a + b == a;
    } else {
      var c := b[..|b| - 1];
      assert (a + b)[..|a + b| - 1] == a + c;
      assert (a + b)[|a + b| - 1] == b[|b| - 1];
      PublishedAppend(a, c);
    }
  }

  /** What the `writing:{role}` hashes hold after the log: the last write to
      each role. */
  function Flags(log: seq<Event>): map<string, Flag> {
    if log == [] then map[]
    else
      var e := log[|log| - 1];
      var before := Flags(log[..|log| - 1]);
      if e.SetWriting? then before[e.role := e.flag] else before
  }

  /** Appending to the log overrides the writing hashes the appended part
      writes and keeps the others. */
  lemma {:induction false} FlagsAppend(a: seq<Event>, b: seq<Event>)
    ensures Flags(a + b) == Flags(a) + Flags(b)
    decreases |b|
  {
    if b == [] {
      assert a + b == a;
    } else {
      var c := b[..|b| - 1];
      assert (a + b)[..|a + b| - 1] == a + c;
      assert (a + b)[|a + b| - 1] == b[|b| - 1];
      FlagsAppend(a, c);
    }
  }

  /** The sleeps in the log, in order. */
  function Sleeps(log: seq<Event>): (r: seq<real>)
    ensures |r| <= |log|
  {
    if log == [] then []
    else
      var e := log[|log| - 1];
      Sleeps(log[..|log| - 1]) + (if e.Sleep? then [e.seconds] else [])
  }

  /** Appending to the log appends to its sleeps. */
  lemma {:induction false} SleepsAppend(a: seq<Event>, b: seq<Event>)
    ensures Sleeps(a + b) == Sleeps(a) + Sleeps(b)
    decreases |b|
  {
    if b == [] {
      assert a + b == a;
    } else {
      var c := b[..|b| - 1];
      assert (a + b)[..|a + b| - 1] == a + c;
      assert (a + b)[|a + b| - 1] == b[|b| - 1];
      SleepsAppend(a, c);
    }
  }

  /** One more event extends what the log publishes, sets and sleeps by
      that event alone. */
  lemma Extend(log: seq<Event>, e: Event)
    ensures Published(log + [e]) == Published(log) + (if e.Publish? then [e.record] else [])
    ensures Flags(log + [e]) == if e.SetWriting? then Flags(log)[e.role := e.flag] else Flags(log)
    ensures Sleeps(log + [e]) == Sleeps(log) + (if e.Sleep? then [e.seconds] else [])
  {
    assert (log + [e])[..|log + [e]| - 1] == log;
  }

  /** The roles of a role list, as a set. */
  function RoleSet(roles: seq<string>): set<string> {
    set r | r in roles
  }

  /** The writes to the writing hashes that set up `roles`, in order: each
      role is its own writer and is not writing. */
  function IdleFlags(roles: seq<string>): (r: seq<Event>)
    ensures |r| == |roles|
    ensures forall k :: 0 <= k < |r| ==> r[k] == SetWriting(roles[k], Flag(roles[k], 0))
  {
    if roles == [] then [] else IdleFlags(roles[..|roles| - 1]) + [SetWriting(roles[|roles| - 1], Flag(roles[|roles| - 1], 0))]
  }

  /** Setting up the writing hashes publishes nothing and leaves every role
      idle, writing for itself. */
  lemma {:induction false} IdleFlagsSpec(roles: seq<string>)
    ensures Published(IdleFlags(roles)) == []
    ensures forall role :: role in Flags(IdleFlags(roles)) <==> role in roles
    ensures forall role :: role in roles ==> Flags(IdleFlags(roles))[role] == Flag(role, 0)
    decreases |roles|
  {
    if roles != [] {
      var init := roles[..|roles| - 1];
      var last := roles[|roles| - 1];
      IdleFlagsSpec(init);
      var log := IdleFlags(roles);
      assert log[..|roles| - 1] == IdleFlags(init);
      assert Flags(log) == Flags(IdleFlags(init))[last := Flag(last, 0)];
      assert Published(log) == Published(IdleFlags(init));
      assert roles == init + [last];
    }
  }

  /** The writing-hash setup loop: each role, in order, is set to be its own
      writer and not writing. */
  method SetupWriting(roles: seq<string>) returns (events: seq<Event>)
    ensures events == IdleFlags(roles)
  {
    events := [];
    for i := 0 to |roles|
      invariant events == IdleFlags(roles[..i])
    {
      assert roles[..i + 1][..i] == roles[..i];
      events := events + [SetWriting(roles[i], Flag(roles[i], 0))];
    }
    assert roles[..|roles|] == roles;
  }

  /** The message hashes the site shows: every sender is a role, a selfie is
      always of its sender and captioned `selfie of <sender>`, a message
      without one has an empty caption, and no two selfies of a role share a
      seed: each is drawn from a later seed than the ones before it. */
  predicate ShownCorrectly(rs: seq<Record>, roles: seq<string>) {
    && (forall k :: 0 <= k < |rs| ==>
          && rs[k].sender in roles
          && (rs[k].image.Some? ==> rs[k].image.value.role == rs[k].sender)
          && rs[k].alt == (if rs[k].image.Some? then "selfie of " + rs[k].sender else ""))
    && (forall i, j :: 0 <= i < j < |rs| && rs[i].image.Some? && rs[j].image.Some? && rs[i].sender == rs[j].sender ==>
          rs[i].image.value.seed < rs[j].image.value.seed)
  }
}
