/** What a poll delivers, partition by partition. */
module PollModel {
  import opened Prelude
  import opened EventTypes
  import opened Ordering
  import opened BrokerModel

  lemma {:induction false} SliceConcat(a: seq<ConsumedRecord>, b: seq<ConsumedRecord>, p: nat)
    ensures Slice(a + b, p) == Slice(a, p) + Slice(b, p)
  {
    if a == [] {
      assert a + b == b;
    } else {
      assert (a + b)[1..] == a[1..] + b;
      SliceConcat(a[1..], b, p);
    }
  }

  /** A batch all from partition `q` is its own slice for `q`, and has nothing for any other. */
  lemma {:induction false} SliceUniform(a: seq<ConsumedRecord>, q: nat, p: nat)
    requires forall i :: 0 <= i < |a| ==> a[i].partition == q
    ensures Slice(a, p) == if p == q then a else []
  {
    if a != [] {
      SliceUniform(a[1..], q, p);
      assert a == [a[0]] + a[1..];
    }
  }

  lemma {:induction false} SliceMember(a: seq<ConsumedRecord>, p: nat, c: ConsumedRecord)
    ensures c in Slice(a, p) <==> c in a && c.partition == p
  {
    if a != [] {
      SliceMember(a[1..], p, c);
      assert a == [a[0]] + a[1..];
    }
  }

  lemma {:induction false} UnreadSlice(logs: TopicLogs, topic: string, position: seq<nat>, owned: seq<nat>, p: nat)
    requires forall i :: 0 <= i < |owned| ==> owned[i] < |position|
    requires NoDuplicates(owned)
    ensures p in owned ==> p < |position| && Slice(Unread(logs, topic, position, owned), p) == Tail(logs, topic, p, position[p])
    ensures p !in owned ==> Slice(Unread(logs, topic, position, owned), p) == []
  {
    if owned != [] {
      var init, last := owned[..|owned| - 1], owned[|owned| - 1];
      assert owned == init + [last];
      UnreadSlice(logs, topic, position, init, p);
      var tail := Tail(logs, topic, last, position[last]);
      SliceConcat(Unread(logs, topic, position, init), tail, p);
      SliceUniform(tail, last, p);
    }
  }

  /** Each partition's share of a delivery is an initial stretch of its unread records; no other partition has one. */
  lemma DeliverySlice(logs: TopicLogs, topic: string, g: Group, id: string, max: int, p: nat)
    requires forall q :: q in OwnedBy(g.assignment, id) ==> q < |g.position|
    ensures p in OwnedBy(g.assignment, id) ==>
      p < |g.position| && Slice(Delivery(logs, topic, g, id, max), p) <= Tail(logs, topic, p, g.position[p])
    ensures p !in OwnedBy(g.assignment, id) ==> Slice(Delivery(logs, topic, g, id, max), p) == []
  {
    var owned := SortedNats(OwnedBy(g.assignment, id));
    assert forall i :: 0 <= i < |owned| ==> owned[i] in owned;
    var all := Unread(logs, topic, g.position, owned);
    UnreadSlice(logs, topic, g.position, owned, p);
    var d := Delivery(logs, topic, g, id, max);
    assert d == all[..|d|] && all == d + all[|d|..];
    SliceConcat(d, all[|d|..], p);
  }

  /** An empty delivery means there was nothing unread, provided at least one record was asked for. */
  lemma EmptyDelivery(logs: TopicLogs, topic: string, g: Group, id: string, max: int, p: nat)
    requires forall q :: q in OwnedBy(g.assignment, id) ==> q < |g.position|
    requires max >= 1 && Delivery(logs, topic, g, id, max) == []
    requires p in OwnedBy(g.assignment, id)
    ensures p < |g.position| && Tail(logs, topic, p, g.position[p]) == []
  {
    var owned := SortedNats(OwnedBy(g.assignment, id));
    assert forall i :: 0 <= i < |owned| ==> owned[i] in owned;
    UnreadSlice(logs, topic, g.position, owned, p);
  }
}
