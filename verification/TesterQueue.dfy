/**
  The queues of the test broker and the names its sessions give to messages (tester/queue.go,
  tester/consumergroup.go).
 */
module TesterQueue {
  import opened Decimal

  datatype Message = Message(offset: int, key: string, value: string)

  /** Offsets count the messages. */
  ghost predicate Numbered(messages: seq<Message>) {
    forall i | 0 <= i < |messages| :: messages[i].offset == i
  }

  class Queue {
    var messages: seq<Message>
    var hwm: int

    ghost predicate Valid()
      reads this
    {
      hwm == |messages| && Numbered(messages)
    }

    constructor ()
      ensures Valid() && messages == []
    {
      messages, hwm := [], 0;
    }

    method Push(key: string, value: string) returns (offset: int)
      requires Valid()
      modifies this
      ensures Valid() && offset == old(|messages|) && messages == old(messages) + [Message(offset, key, value)]
    {
      offset := hwm;
      messages := messages + [Message(offset, key, value)];
      hwm := hwm + 1;
    }

    /** From the offset on: with numbered messages, those whose offset is not below it. */
    method MessagesFromOffset(offset: int) returns (from: seq<Message>)
      requires Valid() && 0 <= offset <= |messages|
      ensures messages[..offset] + from == messages
      ensures forall m | m in messages :: m in from <==> m.offset >= offset
    {
      from := messages[offset..];
      forall m | m in messages ensures m in from <==> m.offset >= offset {
        var i :| 0 <= i < |messages| && messages[i] == m;
        if i >= offset {
          assert from[i - offset] == m;
        }
      }
    }
  }

  // ---------- names of messages ----------

  function MsgKey(topic: string, offset: nat): string {
    topic + "-" + FormatNat(offset)
  }

  lemma NoDashInOffset(t: string, o: nat, i: nat)
    requires |t| < i < |MsgKey(t, o)|
    ensures MsgKey(t, o)[i] != '-'
  {
    var c := FormatNat(o)[i - |t| - 1];
    assert c in FormatNat(o) && MsgKey(t, o)[i] == c;
  }

  /** A name says which message it is, even if the topic has dashes in it. */
  lemma MsgKeyIsInjective(t: string, o: nat, t': string, o': nat)
    requires MsgKey(t, o) == MsgKey(t', o')
    ensures t == t' && o == o'
  {
    var k := MsgKey(t, o);
    assert k[|t|] == '-' && k[|t'|] == '-';
    if |t| < |t'| {
      NoDashInOffset(t, o, |t'|);
    }
    if |t'| < |t| {
      NoDashInOffset(t', o', |t|);
    }
    assert k[..|t|] == t && k[..|t'|] == t';
    assert k[|t| + 1..] == FormatNat(o) && k[|t'| + 1..] == FormatNat(o');
    ParseNatOfFormat(o);
    ParseNatOfFormat(o');
  }
}
