/**
 * The metrics fan-out of the data source: the list of metric subscribers
 * (`metricsSubscribers`), `subscribeToMetrics`, `unsubscribeToMetrics` and the
 * publish step of `window.doStuff`.
 *
 * Subscribers are compared by identity; here a subscriber is a value of an
 * equality type `L`, and two subscribers are the same function exactly when
 * they are equal values. Publishing produces the ordered log of calls the
 * loop makes, one `Delivery` per call.
 */
module MetricsHub {

  /** The metric names the engine reports. */
  datatype Metric = Health | Ammo | AmmoMax | Armor | ArmorType | Weapon

  /** `Metrics`: one number per metric name. */
  type Metrics = map<Metric, int>

  /** One call `fn(metrics)` made by the publish loop. */
  datatype Delivery<L> = Delivery(listener: L, metrics: Metrics)

  /** The metrics record `doStuff` builds from the engine's six arguments, in the engine's argument order. */
  function DoStuffMetrics(health: int, armor: int, armorType: int, ammo: int, ammoMax: int, weapon: int): (m: Metrics)
    ensures m.Keys == {Health, Ammo, AmmoMax, Armor, ArmorType, Weapon}
    ensures m[Health] == health && m[Armor] == armor && m[ArmorType] == armorType
    ensures m[Ammo] == ammo && m[AmmoMax] == ammoMax && m[Weapon] == weapon
  {
    map[Health := health, Ammo := ammo, AmmoMax := ammoMax, Armor := armor, ArmorType := armorType, Weapon := weapon]
  }

  /** `subscribeToMetrics`: `fn` goes to the end of the list, the others stay where they were. */
  function Subscribe<L>(subs: seq<L>, fn: L): (after: seq<L>)
    ensures |after| == |subs| + 1
    ensures after[..|subs|] == subs && after[|subs|] == fn
    ensures multiset(after) == multiset(subs) + multiset{fn}
  {
    subs + [fn]
  }

  /** `unsubscribeToMetrics`: `filter(f => f !== fn)`. */
  function Unsubscribe<L(==)>(subs: seq<L>, fn: L): (after: seq<L>)
    ensures fn !in after
    ensures forall g :: g in after ==> g in subs
    decreases |subs|
  {
    if |subs| == 0 then []
    else
      var rest := Unsubscribe(subs[..|subs| - 1], fn);
      if subs[|subs| - 1] == fn then rest else rest + [subs[|subs| - 1]]
  }

  /** Unsubscribing removes every occurrence of `fn` and keeps every occurrence of the others. */
  lemma {:induction false} UnsubscribeCounts<L>(subs: seq<L>, fn: L)
    ensures multiset(Unsubscribe(subs, fn)) == multiset(subs)[fn := 0]
    ensures |Unsubscribe(subs, fn)| == |subs| - multiset(subs)[fn]
    decreases |subs|
  {
    if |subs| > 0 {
      var n := |subs| - 1;
      UnsubscribeCounts(subs[..n], fn);
      assert subs == subs[..n] + [subs[n]];
    }
  }

  /** Reference definition of one publish: every current subscriber, in list order, with the same metrics. */
  function Fanout<L>(subs: seq<L>, m: Metrics): (log: seq<Delivery<L>>)
    ensures |log| == |subs|
  {
    seq(|subs|, i requires 0 <= i < |subs| => Delivery(subs[i], m))
  }

  /** The publish loop of `doStuff`: `metricsSubscribers.forEach(fn => fn(metrics))`. */
  method Publish<L>(subs: seq<L>, m: Metrics) returns (log: seq<Delivery<L>>)
    ensures |log| == |subs|
    ensures forall i :: 0 <= i < |subs| ==> log[i].listener == subs[i] && log[i].metrics == m
    ensures log == Fanout(subs, m)
  {
    log := [];
    var i := 0;
    while i < |subs|
      invariant i <= |subs|
      invariant |log| == i
      invariant forall j :: 0 <= j < i ==> log[j] == Delivery(subs[j], m)
    {
      log := log + [Delivery(subs[i], m)];
      i := i + 1;
    }
  }

  /** `window.doStuff(...)`: build the metrics record and publish it. */
  method DoStuff<L>(subs: seq<L>, health: int, armor: int, armorType: int, ammo: int, ammoMax: int, weapon: int)
    returns (log: seq<Delivery<L>>)
    ensures log == Fanout(subs, DoStuffMetrics(health, armor, armorType, ammo, ammoMax, weapon))
  {
    log := Publish(subs, DoStuffMetrics(health, armor, armorType, ammo, ammoMax, weapon));
  }

  /** The calls a publish makes to `fn`. */
  ghost function CallsTo<L>(log: seq<Delivery<L>>, fn: L): nat
    decreases |log|
  {
    if |log| == 0 then 0
    else CallsTo(log[..|log| - 1], fn) + (if log[|log| - 1].listener == fn then 1 else 0)
  }

  /** A publish calls each subscriber once per occurrence in the list, and nothing else. */
  lemma {:induction false} FanoutCallsEachOnce<L>(subs: seq<L>, m: Metrics, fn: L)
    ensures CallsTo(Fanout(subs, m), fn) == multiset(subs)[fn]
    decreases |subs|
  {
    if |subs| > 0 {
      var n := |subs| - 1;
      FanoutCallsEachOnce(subs[..n], m, fn);
      assert Fanout(subs, m)[..n] == Fanout(subs[..n], m);
      assert subs == subs[..n] + [subs[n]];
    }
  }

  /** After unsubscribing `fn`, a publish never calls it. */
  lemma NoCallsAfterUnsubscribe<L>(subs: seq<L>, fn: L, m: Metrics)
    ensures CallsTo(Fanout(Unsubscribe(subs, fn), m), fn) == 0
  {
    FanoutCallsEachOnce(Unsubscribe(subs, fn), m, fn);
    UnsubscribeCounts(subs, fn);
  }

  /** A listener subscribed once more is called once more, and last. */
  lemma SubscribedIsCalledLast<L>(subs: seq<L>, fn: L, m: Metrics)
    ensures var log := Fanout(Subscribe(subs, fn), m);
            log[|log| - 1] == Delivery(fn, m) && CallsTo(log, fn) == multiset(subs)[fn] + 1
  {
    FanoutCallsEachOnce(Subscribe(subs, fn), m, fn);
  }

  /** Unsubscribing a listener that is not in the list changes nothing. */
  lemma {:induction false} UnsubscribeAbsent<L>(subs: seq<L>, fn: L)
    requires fn !in subs
    ensures Unsubscribe(subs, fn) == subs
    decreases |subs|
  {
    if |subs| > 0 {
      var n := |subs| - 1;
      forall j | 0 <= j < n
        ensures subs[..n][j] != fn
      {
        assert subs[..n][j] == subs[j];
      }
      UnsubscribeAbsent(subs[..n], fn);
      assert subs == subs[..n] + [subs[n]];
    }
  }

  /** Removal keeps order: unsubscribing from two lists joined is unsubscribing from each. */
  lemma {:induction false} UnsubscribeAppend<L>(a: seq<L>, b: seq<L>, fn: L)
    ensures Unsubscribe(a + b, fn) == Unsubscribe(a, fn) + Unsubscribe(b, fn)
    decreases |b|
  {
    if |b| == 0 {
      assert a + b == a;
    } else {
      var n := |b| - 1;
      UnsubscribeAppend(a, b[..n], fn);
      var ab := a + b;
      assert ab[..|ab| - 1] == a + b[..n];
      assert ab[|ab| - 1] == b[n];
      var tail := if b[n] == fn then [] else [b[n]];
      assert Unsubscribe(ab, fn) == Unsubscribe(a + b[..n], fn) + tail;
      assert Unsubscribe(b, fn) == Unsubscribe(b[..n], fn) + tail;
    }
  }

  /** Unsubscribing twice is unsubscribing once. */
  lemma UnsubscribeIdempotent<L>(subs: seq<L>, fn: L)
    ensures Unsubscribe(Unsubscribe(subs, fn), fn) == Unsubscribe(subs, fn)
  {
    UnsubscribeAbsent(Unsubscribe(subs, fn), fn);
  }

  /** Unsubscribing two listeners gives the same list in either order. */
  lemma {:induction false} UnsubscribeCommutes<L>(subs: seq<L>, f: L, g: L)
    ensures Unsubscribe(Unsubscribe(subs, f), g) == Unsubscribe(Unsubscribe(subs, g), f)
    decreases |subs|
  {
    if |subs| > 0 {
      var n := |subs| - 1;
      UnsubscribeCommutes(subs[..n], f, g);
      var x := subs[n];
      UnsubscribeAppend(Unsubscribe(subs[..n], f), [x], g);
      UnsubscribeAppend(Unsubscribe(subs[..n], g), [x], f);
      assert [x][..0] == [];
    }
  }

  /**
   * The lifetime of a metric query: its listener is subscribed when the query
   * starts and unsubscribed on teardown; a listener that was not subscribed
   * before leaves the list as it found it.
   */
  lemma MetricQueryLeavesNoTrace<L>(subs: seq<L>, fn: L)
    requires fn !in subs
    ensures Unsubscribe(Subscribe(subs, fn), fn) == subs
  {
    UnsubscribeAppend(subs, [fn], fn);
    UnsubscribeAbsent(subs, fn);
    assert [fn][..0] == [];
  }
}
