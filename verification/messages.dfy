/** The message list of the exhibition site: a store cell holding the
    messages received so far, in order of arrival. */
module Messages {

  /** A message as the site receives it. */
  datatype Message = Message(id: string, sender: string, text: string, imageData: seq<bv8>, alt: string, timestamp: real)

  /** `add`'s update: the old list followed by the new message. Nothing is
      dropped, reordered or merged, even when a message with the same id is
      already there. */
  function Added(ms: seq<Message>, m: Message): (r: seq<Message>)
    ensures |r| == |ms| + 1
    ensures r[..|ms|] == ms && r[|ms|] == m
    ensures forall x :: x in r <==> x in ms || x == m
  {
    ms + [m]
  }

  /** Adding never deduplicates: a message whose id is already listed is
      appended all the same, and occurs once more than before. */
  lemma AddedKeepsDuplicates(ms: seq<Message>, m: Message, k: nat)
    requires k < |ms| && ms[k].id == m.id
    ensures Added(ms, m)[k].id == Added(ms, m)[|ms|].id
    ensures multiset(Added(ms, m))[m] == multiset(ms)[m] + 1
  {
    assert Added(ms, m)[..|ms|] == ms;
  }

  /** The store cell. */
  class Store {
    var messages: seq<Message>

    /** `createMessages`: no messages yet. */
    constructor ()
      ensures messages == []
    {
      messages := [];
    }

    method Add(m: Message)
      modifies this
      ensures messages == Added(old(messages), m)
    {
      messages := Added(messages, m);
    }

    /** Empty again, whatever was there. */
    method Reset()
      modifies this
      ensures messages == []
    {
      messages := [];
    }
  }
}
