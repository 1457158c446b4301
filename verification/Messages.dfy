/** Which channel takes what, and how deliveries become messages (channels.py). */
module Messages {
  datatype Group = Problems | Recoveries | News | Security

  datatype ChannelKey = Discord | Ntfy | Email | Webhook

  /** Every channel, in the order the dispatcher takes them. */
  const KINDS: seq<ChannelKey> := [Discord, Ntfy, Email, Webhook]

  const BATCH_AT := 4

  /** Which group an alert belongs to. */
  function GroupOf(kind: string, tone: string): Group {
    if "security_" <= kind then Security
    else if kind == "new_devices" then News
    else if tone == "ok" then Recoveries
    else Problems
  }

  /** Every channel may take several alerts in one message, except a webhook. */
  predicate Combines(key: ChannelKey) {
    key != Webhook
  }

  function Singles(ids: seq<nat>): seq<seq<nat>> {
    seq(|ids|, i requires 0 <= i < |ids| => [ids[i]])
  }

  /** What is due, and what quiet hours held, grouped into messages. */
  method GroupIntoMessages(items: seq<nat>, held: seq<nat>, combines: bool) returns (out: seq<seq<nat>>)
    ensures out == MessagesOf(items, held, combines)
  {
    out := [];
    if !combines {
      out := out + Singles(held);
      out := out + Singles(items);
      return;
    }
    if held != [] {
      out := out + [held];
    }
    if |items| >= BATCH_AT {
      out := out + [items];
    } else {
      out := out + Singles(items);
    }
  }

  function MessagesOf(items: seq<nat>, held: seq<nat>, combines: bool): seq<seq<nat>> {
    if !combines then Singles(held) + Singles(items)
    else (if held != [] then [held] else []) + (if |items| >= BATCH_AT then [items] else Singles(items))
  }

  function Flatten(ms: seq<seq<nat>>): seq<nat> {
    if ms == [] then [] else ms[0] + Flatten(ms[1..])
  }

  lemma {:induction false} FlattenAppend(a: seq<seq<nat>>, b: seq<seq<nat>>)
    ensures Flatten(a + b) == Flatten(a) + Flatten(b)
    decreases |a|
  {
    if a == [] {
      assert a + b == b;
    } else {
      assert (a + b)[1..] == a[1..] + b;
      FlattenAppend(a[1..], b);
    }
  }

  lemma {:induction false} FlattenSingles(ids: seq<nat>)
    ensures Flatten(Singles(ids)) == ids
    decreases |ids|
  {
    if ids != [] {
      assert Singles(ids)[1..] == Singles(ids[1..]);
      FlattenSingles(ids[1..]);
    }
  }

  /** Every due or held delivery is in exactly one message: the messages, one
      after the other, are the held ones and then the due ones; none is empty. */
  lemma {:induction false} InExactlyOneMessage(items: seq<nat>, held: seq<nat>, combines: bool)
    ensures Flatten(MessagesOf(items, held, combines)) == held + items
    ensures forall m :: m in MessagesOf(items, held, combines) ==> m != []
  {
    var first := if !combines then Singles(held) else if held != [] then [held] else [];
    var second := if combines && |items| >= BATCH_AT then [items] else Singles(items);
    assert MessagesOf(items, held, combines) == first + second;
    FlattenAppend(first, second);
    FlattenSingles(held);
    FlattenSingles(items);
    assert [held][1..] == [] && [items][1..] == [];
    forall m | m in Singles(held) || m in Singles(items) ensures m != [] {
    }
  }

  /** A burst goes out as one message, and so does what quiet hours held. */
  lemma BurstIsOneMessage(items: seq<nat>, held: seq<nat>)
    requires |items| >= BATCH_AT
    ensures |MessagesOf(items, held, true)| == (if held == [] then 1 else 2)
  {
  }
}
