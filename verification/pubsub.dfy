/**
 * The `Events` pub/sub table of Vida: a map from topic to the list of
 * callbacks subscribed to it. Callbacks are opaque tokens; publishing
 * reports the callbacks invoked, in the order they are invoked.
 */
module PubSub {
  import opened Protocol

  type Callback = nat

  /** `[topic, callback]`, as returned by `subscribe`. */
  type Handle = (string, Callback)

  type Table = map<string, seq<Callback>>

  function Reversed<T>(s: seq<T>): (r: seq<T>)
    ensures |r| == |s|
    ensures forall i | 0 <= i < |s| :: r[i] == s[|s| - 1 - i]
  {
    if s == [] then [] else Reversed(s[1..]) + [s[0]]
  }

  /** The callbacks of a topic; an unknown topic has none. */
  function Listeners(cache: Table, topic: string): seq<Callback>
  {
    if topic in cache then cache[topic] else []
  }

  /** Where `unsubscribe`'s backwards scan stops: the last occurrence of `c`. */
  function LastIndexOf(s: seq<Callback>, c: Callback): (r: Option<nat>)
    ensures r.None? <==> c !in s
    ensures r.Some? ==> r.value < |s| && s[r.value] == c && forall k | r.value < k < |s| :: s[k] != c
  {
    if s == [] then None
    else if s[|s| - 1] == c then Some(|s| - 1)
    else LastIndexOf(s[..|s| - 1], c)
  }

  /** The table after `subscribe(topic, callback)`. */
  function Subscribed(cache: Table, topic: string, callback: Callback): (r: Table)
    ensures r.Keys == cache.Keys + {topic}
    ensures r[topic] == Listeners(cache, topic) + [callback]
    ensures forall t | t in cache && t != topic :: r[t] == cache[t]
  {
    cache[topic := Listeners(cache, topic) + [callback]]
  }

  /** The table after `unsubscribe(handle, completely)`, and its boolean result. */
  function Unsubscribed(cache: Table, handle: Handle, completely: bool): (r: (Table, bool))
    ensures r.1 <==> handle.0 in cache && handle.1 in cache[handle.0]
    ensures !r.1 ==> r.0 == cache
    ensures r.1 && completely ==> r.0 == cache - {handle.0}
    ensures r.1 && !completely ==>
              && r.0.Keys == cache.Keys
              && (forall t | t in cache && t != handle.0 :: r.0[t] == cache[t])
              && multiset(r.0[handle.0]) == multiset(cache[handle.0]) - multiset{handle.1}
  {
    var (topic, callback) := handle;
    if topic !in cache then (cache, false)
    else
      match LastIndexOf(cache[topic], callback)
      case None => (cache, false)
      case Some(i) =>
        var list := cache[topic];
        assert list == list[..i] + [list[i]] + list[i + 1..];
        var rest := cache[topic := list[..i] + list[i + 1..]];
        (if completely then rest - {topic} else rest, true)
  }

  /**
   * Subscribing and then unsubscribing the returned handle undoes the
   * subscription: only the occurrence just appended is removed, even when
   * the same callback was subscribed to the topic before. A topic the
   * subscription created stays behind with an empty list.
   */
  lemma SubscribeThenUnsubscribe(cache: Table, topic: string, callback: Callback)
    ensures Unsubscribed(Subscribed(cache, topic, callback), (topic, callback), false)
            == (if topic in cache then cache else cache[topic := []], true)
  {
    var before := Listeners(cache, topic);
    var list := before + [callback];
    var subscribed := Subscribed(cache, topic, callback);
    assert subscribed[topic] == list;
    assert LastIndexOf(list, callback) == Some(|before|);
    UnsubscribedAt(subscribed, topic, callback, |before|);
    SpliceLast(before, callback);
    RestoreTopic(cache, topic, callback);
  }

  /** Unsubscribing a callback whose last occurrence is at i splices out exactly that occurrence. */
  lemma UnsubscribedAt(cache: Table, topic: string, callback: Callback, i: nat)
    requires topic in cache && LastIndexOf(cache[topic], callback) == Some(i)
    ensures Unsubscribed(cache, (topic, callback), false)
            == (cache[topic := cache[topic][..i] + cache[topic][i + 1..]], true)
  {
  }

  /** Splicing out the last element of `s + [c]` gives `s` back. */
  lemma SpliceLast(s: seq<Callback>, c: Callback)
    ensures (s + [c])[..|s|] + (s + [c])[|s| + 1..] == s
  {
    assert (s + [c])[..|s|] == s;
  }

  /** Putting a topic's old callbacks back after a subscription restores the table, up to an empty topic. */
  lemma RestoreTopic(cache: Table, topic: string, callback: Callback)
    ensures Subscribed(cache, topic, callback)[topic := Listeners(cache, topic)]
            == if topic in cache then cache else cache[topic := []]
  {
  }

  /** Unsubscribing `completely` removes the topic with every other callback it had. */
  lemma UnsubscribeCompletelyDropsTopic(cache: Table, handle: Handle)
    requires handle.0 in cache && handle.1 in cache[handle.0]
    ensures handle.0 !in Unsubscribed(cache, handle, true).0
    ensures Publishes(Unsubscribed(cache, handle, true).0, handle.0) == []
  {
  }

  /** What `publish(topic)` invokes: every callback of the topic, newest first. */
  function Publishes(cache: Table, topic: string): (r: seq<Callback>)
    ensures |r| == |Listeners(cache, topic)|
    ensures forall i | 0 <= i < |r| :: r[i] == Listeners(cache, topic)[|r| - 1 - i]
  {
    Reversed(Listeners(cache, topic))
  }

  class Events {
    var cache: Table

    constructor ()
      ensures cache == map[]
    {
      cache := map[];
    }

    /** Invokes the callbacks of `topic` from the last subscribed to the first. */
    method Publish(topic: string) returns (called: seq<Callback>)
      ensures called == Publishes(cache, topic)
    {
      called := [];
      if topic in cache {
        var thisTopic := cache[topic];
        var i := |thisTopic|;
        while i > 0
          invariant 0 <= i <= |thisTopic|
          invariant called == Reversed(thisTopic[i..])
        {
          i := i - 1;
          assert thisTopic[i..][1..] == thisTopic[i + 1..];
          called := called + [thisTopic[i]];
        }
        assert thisTopic[0..] == thisTopic;
      }
    }

    method Subscribe(topic: string, callback: Callback) returns (handle: Handle)
      modifies this
      ensures handle == (topic, callback)
      ensures cache == Subscribed(old(cache), topic, callback)
    {
      if topic !in cache {
        cache := cache[topic := []];
      }
      cache := cache[topic := cache[topic] + [callback]];
      handle := (topic, callback);
    }

    /** Removes the last occurrence of the handle's callback from its topic. */
    method Unsubscribe(handle: Handle, completely: bool) returns (removed: bool)
      modifies this
      ensures (cache, removed) == Unsubscribed(old(cache), handle, completely)
    {
      var t := handle.0;
      if t in cache {
        var list := cache[t];
        var i := |list|;
        while i > 0
          invariant 0 <= i <= |list|
          invariant forall k | i <= k < |list| :: list[k] != handle.1
          invariant cache == old(cache)
        {
          i := i - 1;
          if list[i] == handle.1 {
            assert LastIndexOf(list, handle.1) == Some(i);
            cache := cache[t := list[..i] + list[i + 1..]];
            if completely {
              cache := cache - {t};
            }
            return true;
          }
        }
        assert handle.1 !in list;
      }
      return false;
    }

    method UnsubscribeAll()
      modifies this
      ensures cache == map[]
    {
      cache := map[];
    }
  }
}
