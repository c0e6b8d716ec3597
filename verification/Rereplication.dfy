/** The scan of the local store after a membership change, as a node runs it. */
module Rereplication {
  import opened FileNames
  import opened MemberInfo
  import opened Ring
  import opened Durability

  ghost predicate NoRepeats(messages: seq<Message>) {
    forall i, j :: 0 <= i < j < |messages| ==> messages[i] != messages[j]
  }

  lemma NoRepeatsAppend(a: seq<Message>, b: seq<Message>)
    requires NoRepeats(a) && NoRepeats(b) && forall m :: m in a ==> m !in b
    ensures NoRepeats(a + b)
  {
    forall i, j | 0 <= i < j < |a + b| ensures (a + b)[i] != (a + b)[j] {
      if i < |a| <= j {
        assert a[i] in a && b[j - |a|] in b;
      }
    }
  }

  /** Goes through the directories on the top level; for each file whose primary the node is, one
      message is sent to every other expected replica. This is the scan step of module Durability. */
  method CheckAndRereplicate(ghost c: Cluster, store: Store, infoMap: map<RingId, Info>, me: RingId)
    returns (messages: seq<Message>)
    requires me in c.stores && c.stores[me] == store && c.alive == AliveIds(infoMap)
    requires forall d :: d in store ==> DirOf(store[d].name) == d
    ensures NoRepeats(messages)
    ensures forall m :: m in messages <==> m in ScanMessages(c, me)
  {
    messages := [];
    var left := store.Keys;
    while left != {}
      invariant left <= store.Keys && NoRepeats(messages)
      invariant forall m :: m in messages <==> ScannedIn(c, me, store, store.Keys - left, m)
      decreases |left|
    {
      var d :| d in left;
      if '/' !in d {
        var sent := ScanFile(c, store[d], infoMap, me);
        NoRepeatsAppend(messages, sent);
        messages := messages + sent;
      }
      left := left - {d};
    }
    assert store.Keys - left == store.Keys;
  }

  /** The message is due for a file in one of the directories scanned. */
  ghost predicate ScannedIn(c: Cluster, me: RingId, store: Store, done: set<string>, m: Message) {
    exists d :: d in done && d in store && '/' !in d && m.file == store[d] && m.to in Others(c, me, m.file)
  }

  /** One file: nothing unless the node is the first of the expected replicas. */
  method ScanFile(ghost c: Cluster, file: Stored, infoMap: map<RingId, Info>, me: RingId)
    returns (messages: seq<Message>)
    requires c.alive == AliveIds(infoMap)
    ensures NoRepeats(messages)
    ensures forall m :: m in messages <==> m.file == file && m.to in Others(c, me, file)
  {
    messages := [];
    var expectedSuccessors := GetSuccessors(file.fileID, infoMap, NUM_REPLICAS);
    assert expectedSuccessors == Replicas(c, file.fileID);
    if |expectedSuccessors| == 0 || expectedSuccessors[0] != me {
      return;
    }
    SuccessorsWithin(file.fileID, c.alive, NUM_REPLICAS);
    SuccessorsDistinct(file.fileID, c.alive, NUM_REPLICAS);
    var k := 0;
    while k < |expectedSuccessors|
      invariant 0 <= k <= |expectedSuccessors| && NoRepeats(messages)
      invariant forall m :: m in messages <==> m.file == file && m.to != me && m.to in expectedSuccessors[..k]
    {
      var target := expectedSuccessors[k];
      assert target in AliveIds(infoMap);
      if infoMap[target].state == Alive && target != me {
        messages := messages + [Message(target, file)];
      }
      assert expectedSuccessors[..k + 1] == expectedSuccessors[..k] + [target];
      k := k + 1;
    }
    assert expectedSuccessors[..k] == expectedSuccessors;
    assert forall to :: to in Others(c, me, file) <==> to in expectedSuccessors && to != me;
  }
}
