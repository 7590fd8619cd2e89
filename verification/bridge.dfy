/**
 * The discovery bridge's state: the cache of the last discovery payload
 * announced per config topic, the publishes handed to the MQTT client and
 * the subscriptions made. The message handler and the connect handler are
 * its two operations, each taken as one atomic step. In the source the
 * message handler publishes before it takes the cache's mutex, so a
 * replay running on connect can slip between its publish and its cache
 * write; here the publish and the cache write are one step (`Publish`),
 * and the invariant `Consistent` relies on that.
 */
module Bridge {

  import opened Wrappers
  import opened Topics
  import opened Discovery

  /**
   * What a broker retains after the publishes in `msgs`, in order: for each
   * topic, the payload of the last retained publish on it.
   */
  function RetainedView(msgs: seq<Message>): map<string, Payload>
  {
    if msgs == [] then map[]
    else
      var last := msgs[|msgs| - 1];
      var before := RetainedView(msgs[..|msgs| - 1]);
      if last.retained then before[last.topic := last.payload] else before
  }

  /** Later publishes override earlier ones topic by topic. */
  lemma {:induction false} RetainedViewAppend(a: seq<Message>, b: seq<Message>)
    ensures RetainedView(a + b) == RetainedView(a) + RetainedView(b)
    decreases |b|
  {
    if b == [] {
      assert a + b == a;
    } else {
      var init := b[..|b| - 1];
      assert (a + b)[..|a + b| - 1] == a + init;
      RetainedViewAppend(a, init);
    }
  }

  /** A retained view holds only topics that some retained publish used. */
  lemma {:induction false} RetainedViewTopics(msgs: seq<Message>, t: string)
    requires t in RetainedView(msgs)
    ensures exists i :: 0 <= i < |msgs| && msgs[i].retained && msgs[i].topic == t && msgs[i].payload == RetainedView(msgs)[t]
  {
    var n := |msgs| - 1;
    if !(msgs[n].retained && msgs[n].topic == t) {
      RetainedViewTopics(msgs[..n], t);
      var i :| 0 <= i < n && msgs[..n][i].retained && msgs[..n][i].topic == t
        && msgs[..n][i].payload == RetainedView(msgs[..n])[t];
      assert msgs[i] == msgs[..n][i];
    }
  }

  /**
   * The broker's retained discovery messages after `outbox` are exactly
   * `cache`, and every cached payload is what its own state topic announces.
   */
  ghost predicate Consistent(outbox: seq<Message>, cache: map<string, Payload>, url: string)
  {
    RetainedView(outbox) == cache && Announced(cache, url)
  }

  /** Every cached payload is what its own state topic announces on that config topic. */
  ghost predicate Announced(cache: map<string, Payload>, url: string)
  {
    forall t :: AnnouncedAt(cache, url, t)
  }

  /** The cache entry for `t`, if any, is what its own state topic announces on `t`. */
  ghost predicate AnnouncedAt(cache: map<string, Payload>, url: string, t: string)
  {
    t in cache ==> Announce(cache[t].stateTopic, url) == Some(Message(t, 0, true, cache[t]))
  }

  /**
   * Publishing an announcement and caching it keeps the broker's retained
   * messages equal to the cache and every cached payload an announcement of
   * its own state topic.
   */
  lemma Announcing(outbox: seq<Message>, cache: map<string, Payload>, url: string, topic: string)
    requires Consistent(outbox, cache, url)
    requires Announce(topic, url).Some?
    ensures var m := Announce(topic, url).value;
      Consistent(outbox + [m], cache[m.topic := m.payload], url)
  {
    var m := Announce(topic, url).value;
    assert (outbox + [m])[..|outbox|] == outbox;
    CacheAnnouncement(cache, url, topic);
  }

  /** Caching an announcement keeps every cached payload an announcement of its own state topic. */
  lemma CacheAnnouncement(cache: map<string, Payload>, url: string, topic: string)
    requires Announced(cache, url)
    requires Announce(topic, url).Some?
    ensures var m := Announce(topic, url).value;
      Announced(cache[m.topic := m.payload], url)
  {
    var m := Announce(topic, url).value;
    assert m == Message(m.topic, 0, true, m.payload);
    CacheEntry(cache, url, m.topic, m.payload);
  }

  /** Caching a payload that its own state topic announces on `k` keeps the cache announced. */
  lemma CacheEntry(cache: map<string, Payload>, url: string, k: string, p: Payload)
    requires Announced(cache, url)
    requires Announce(p.stateTopic, url) == Some(Message(k, 0, true, p))
    ensures Announced(cache[k := p], url)
  {
    var updated := cache[k := p];
    forall t ensures AnnouncedAt(updated, url, t) {
      if t == k {
        assert updated[t] == p;
      } else {
        assert AnnouncedAt(cache, url, t);
        assert t in updated ==> t in cache && updated[t] == cache[t];
      }
    }
  }

  class DiscoveryBridge {
    /** Configuration URL shown in every device block. */
    const url: string
    /** Topic filter the bridge subscribes to on every connect. */
    const subscription: string
    /** Config topic to the last payload announced on it (`discoveryCache`). */
    var cache: map<string, Payload>
    /** Every publish handed to the MQTT client, oldest first. */
    var outbox: seq<Message>
    /** Every subscription made, oldest first. */
    var subscriptions: seq<string>

    /**
     * The broker's retained discovery messages are exactly the cache, and
     * every cached payload is what its own state topic announces.
     */
    ghost predicate Valid()
      reads this
    {
      Consistent(outbox, cache, url)
    }

    /** A bridge that has neither connected nor seen a message. */
    constructor (url: string, subscription: string)
      ensures Valid()
      ensures this.url == url && this.subscription == subscription
      ensures cache == map[] && outbox == [] && subscriptions == []
    {
      this.url := url;
      this.subscription := subscription;
      cache := map[];
      outbox := [];
      subscriptions := [];
    }

    /**
     * The message handler: an accepted topic is announced with one retained
     * publish on its config topic, and then the cache entry for that topic
     * is set to the payload, replacing any earlier one; any other topic
     * changes nothing.
     */
    method OnMessage(topic: string)
      requires Valid()
      modifies this
      ensures Valid()
      ensures subscriptions == old(subscriptions)
      ensures Announce(topic, url).None? ==> cache == old(cache) && outbox == old(outbox)
      ensures Announce(topic, url).Some? ==>
        var m := Announce(topic, url).value;
        && outbox == old(outbox) + [m]
        && cache == old(cache)[m.topic := m.payload]
    {
      var announcement := Announce(topic, url);
      if announcement.Some? {
        Announcing(outbox, cache, url, topic);
        Publish(announcement.value);
      }
    }

    /**
     * Hand `m` to the client and remember its payload under its config
     * topic, as one step (the source takes the cache's mutex only for the
     * second half, and caches the payload even when the publish fails).
     */
    method Publish(m: Message)
      modifies this
      ensures outbox == old(outbox) + [m] && cache == old(cache)[m.topic := m.payload]
      ensures subscriptions == old(subscriptions)
    {
      outbox, cache := outbox + [m], cache[m.topic := m.payload];
    }

    /**
     * The connect handler: subscribe, then republish every cached payload,
     * retained, on its config topic, once per topic, in some order. The
     * cache is unchanged.
     */
    method OnConnect()
      requires Valid()
      modifies this
      ensures Valid()
      ensures cache == old(cache)
      ensures subscriptions == old(subscriptions) + [subscription]
      ensures Republished(old(outbox), outbox, cache)
    {
      subscriptions := subscriptions + [subscription];
      ghost var before := outbox;
      ghost var replay := RepublishCache();
      ReplayFinish(before, replay, cache, url);
    }

    /**
     * The connect handler's loop: one retained publish per cached topic, in
     * whatever order the map yields them. `replay` is what it appends.
     */
    method RepublishCache() returns (ghost replay: seq<Message>)
      modifies this
      ensures cache == old(cache) && subscriptions == old(subscriptions)
      ensures outbox == old(outbox) + replay
      ensures Replayed(cache, {}, replay)
    {
      var snapshot := cache;
      var todo := snapshot.Keys;
      replay := [];
      ReplayStart(snapshot);
      while todo != {}
        invariant cache == snapshot && subscriptions == old(subscriptions)
        invariant outbox == old(outbox) + replay
        invariant Replayed(snapshot, todo, replay)
        decreases todo
      {
        var t :| t in todo;
        var m := Message(t, 0, true, snapshot[t]);
        ReplayStep(snapshot, todo, replay, t);
        outbox := outbox + [m];
        replay := replay + [m];
        todo := todo - {t};
      }
    }
  }

  /** Nothing is republished yet. */
  lemma ReplayStart(cache: map<string, Payload>)
    ensures Replayed(cache, cache.Keys, [])
  {
    RestKeys(cache, cache.Keys);
  }

  /** The part of the cache outside `todo` has exactly the keys outside `todo`. */
  lemma RestKeys(cache: map<string, Payload>, todo: set<string>)
    ensures (map t | t in cache && t !in todo :: cache[t]).Keys == cache.Keys - todo
  {
  }

  /**
   * `after` is `before` followed by one retained publish of every cached
   * payload on its own config topic, each topic exactly once, in some order.
   */
  ghost predicate Republished(before: seq<Message>, after: seq<Message>, cache: map<string, Payload>)
  {
    && |after| == |before| + |cache|
    && after[..|before|] == before
    && (forall i :: |before| <= i < |after| ==>
          after[i].topic in cache && after[i] == Message(after[i].topic, 0, true, cache[after[i].topic]))
    && (forall i, j :: |before| <= i < j < |after| ==> after[i].topic != after[j].topic)
    && (forall t :: t in cache ==> exists i :: |before| <= i < |after| && after[i].topic == t)
  }

  /** A finished replay appended to the earlier publishes republishes the cache and keeps what the broker retains. */
  lemma ReplayFinish(before: seq<Message>, replay: seq<Message>, cache: map<string, Payload>, url: string)
    requires Replayed(cache, {}, replay)
    requires Consistent(before, cache, url)
    ensures Consistent(before + replay, cache, url)
    ensures Republished(before, before + replay, cache)
  {
    ReplayDone(cache, replay);
    ReplayKeepsRetained(before, replay, cache);
    ReplayRepublishes(before, replay, cache);
  }

  /** A finished replay appended to the earlier publishes republishes every cached topic once. */
  lemma ReplayRepublishes(before: seq<Message>, replay: seq<Message>, cache: map<string, Payload>)
    requires Replayed(cache, {}, replay)
    ensures Republished(before, before + replay, cache)
  {
    var all := before + replay;
    assert all[..|before|] == before;
    assert forall i :: |before| <= i < |all| ==> all[i] == replay[i - |before|];
    forall t | t in cache
      ensures exists i :: |before| <= i < |all| && all[i].topic == t
    {
      var j :| 0 <= j < |replay| && replay[j].topic == t;
      assert all[|before| + j].topic == t;
    }
  }

  /**
   * `replay` republishes, retained and once each, the cached payloads of
   * every topic not in `todo`, and the broker view it builds is that part
   * of the cache.
   */
  ghost predicate Replayed(cache: map<string, Payload>, todo: set<string>, replay: seq<Message>)
  {
    && todo <= cache.Keys
    && |replay| + |todo| == |cache|
    && (forall i :: 0 <= i < |replay| ==>
          replay[i].topic in cache && replay[i].topic !in todo
          && replay[i] == Message(replay[i].topic, 0, true, cache[replay[i].topic]))
    && (forall i, j :: 0 <= i < j < |replay| ==> replay[i].topic != replay[j].topic)
    && (forall t :: t in cache && t !in todo ==> exists i :: 0 <= i < |replay| && replay[i].topic == t)
    && RetainedView(replay) == map t | t in cache && t !in todo :: cache[t]
  }

  /** Republishing one more cached topic. */
  lemma ReplayStep(cache: map<string, Payload>, todo: set<string>, replay: seq<Message>, t: string)
    requires Replayed(cache, todo, replay) && t in todo
    ensures Replayed(cache, todo - {t}, replay + [Message(t, 0, true, cache[t])])
  {
    var m := Message(t, 0, true, cache[t]);
    var next := replay + [m];
    assert next[..|replay|] == replay;
    assert next[|replay|] == m;
    forall u | u in cache && u !in todo - {t}
      ensures exists i :: 0 <= i < |next| && next[i].topic == u
    {
      if u == t {
        assert next[|replay|].topic == u;
      } else {
        var i :| 0 <= i < |replay| && replay[i].topic == u;
        assert next[i].topic == u;
      }
    }
  }

  /** Once every topic is republished, the replay alone makes the broker hold the cache. */
  lemma ReplayDone(cache: map<string, Payload>, replay: seq<Message>)
    requires Replayed(cache, {}, replay)
    ensures RetainedView(replay) == cache
  {
  }

  /**
   * Replaying the cache leaves what the broker retains unchanged: after a
   * connect the broker holds exactly the announcements made so far.
   */
  lemma ReplayKeepsRetained(before: seq<Message>, replay: seq<Message>, cache: map<string, Payload>)
    requires RetainedView(before) == cache
    requires RetainedView(replay) == cache
    ensures RetainedView(before + replay) == cache
  {
    RetainedViewAppend(before, replay);
  }
}
