/**
 The Kafka bindings processor: when its kind is enabled, every binding of that
 kind has its four bootstrap-server entries copied, when present, to
 `spring.kafka.*` properties.
 */
module Kafka {
  import opened Wrappers
  import opened Bindings
  import opened Properties

  /** The kind the processor filters on, as the source declares it. */
  const Kind := "Cassandra"

  /** The kind a processor of Kafka bindings evidently means to filter on. */
  const IntendedKind := "Kafka"

  const ServersSource := "bootstrap-servers"
  const ConsumerSource := "consumer.bootstrap-servers"
  const ProducerSource := "producer.bootstrap-servers"
  const StreamsSource := "streams.bootstrap-servers"

  const ServersKey := "spring.kafka.bootstrap-servers"
  const ConsumerKey := "spring.kafka.consumer.bootstrap-servers"
  const ProducerKey := "spring.kafka.producer.bootstrap-servers"
  const StreamsKey := "spring.kafka.streams.bootstrap-servers"

  /** The only keys the processor can write. */
  const Keys: set<string> := {ServersKey, ConsumerKey, ProducerKey, StreamsKey}

  /**
   After copy-if-present writes from `bindings`, each of the four targets
   follows its own source key and no other.
   */
  ghost predicate TracksAll(bindings: seq<Binding>, before: PropertyMap, after: PropertyMap)
  {
    && Tracks(bindings, ServersSource, ServersKey, before, after)
    && Tracks(bindings, ConsumerSource, ConsumerKey, before, after)
    && Tracks(bindings, ProducerSource, ProducerKey, before, after)
    && Tracks(bindings, StreamsSource, StreamsKey, before, after)
  }

  /** The four mapper calls for one binding. */
  function ApplyBinding(binding: Binding, props: PropertyMap): (r: PropertyMap)
    ensures TracksAll([binding], props, r)
    ensures AgreeOutside(props, r, Keys)
  {
    var secret := binding.secret;
    var p1 := MapFrom(secret, ServersSource, ServersKey, props);
    var p2 := MapFrom(secret, ConsumerSource, ConsumerKey, p1);
    var p3 := MapFrom(secret, ProducerSource, ProducerKey, p2);
    var r := MapFrom(secret, StreamsSource, StreamsKey, p3);
    LastWithSingle(binding, ServersSource);
    LastWithSingle(binding, ConsumerSource);
    LastWithSingle(binding, ProducerSource);
    LastWithSingle(binding, StreamsSource);
    assert SameAt(p1, p2, ServersKey) && SameAt(p2, p3, ServersKey) && SameAt(p3, r, ServersKey);
    assert SameAt(props, p1, ConsumerKey) && SameAt(p2, p3, ConsumerKey) && SameAt(p3, r, ConsumerKey);
    assert SameAt(props, p1, ProducerKey) && SameAt(p1, p2, ProducerKey) && SameAt(p3, r, ProducerKey);
    assert SameAt(props, p1, StreamsKey) && SameAt(p1, p2, StreamsKey) && SameAt(p2, p3, StreamsKey);
    AgreeOutsideTrans(props, p1, p2, Keys);
    AgreeOutsideTrans(props, p2, p3, Keys);
    AgreeOutsideTrans(props, p3, r, Keys);
    r
  }

  /**
   One step of the fold: if a target tracks its source over `init` from
   `before` to `mid`, and the last binding is then applied, it tracks its
   source over all of `init + [last]`.
   */
  lemma TracksStep(init: seq<Binding>, last: Binding, source: string, target: string,
                   before: PropertyMap, mid: PropertyMap, after: PropertyMap)
    requires Tracks(init, source, target, before, mid)
    requires Tracks([last], source, target, mid, after)
    ensures Tracks(init + [last], source, target, before, after)
  {
    LastWithSnoc(init, last, source);
    LastWithSingle(last, source);
  }

  /** The bindings processed in order; each target ends with its last copied value. */
  function ApplyAll(bindings: seq<Binding>, props: PropertyMap): (r: PropertyMap)
    ensures TracksAll(bindings, props, r)
    ensures AgreeOutside(props, r, Keys)
  {
    if |bindings| == 0 then props
    else
      var init := bindings[..|bindings| - 1];
      var last := bindings[|bindings| - 1];
      var before := ApplyAll(init, props);
      var r := ApplyBinding(last, before);
      assert bindings == init + [last];
      TracksStep(init, last, ServersSource, ServersKey, props, before, r);
      TracksStep(init, last, ConsumerSource, ConsumerKey, props, before, r);
      TracksStep(init, last, ProducerSource, ProducerKey, props, before, r);
      TracksStep(init, last, StreamsSource, StreamsKey, props, before, r);
      AgreeOutsideTrans(props, before, r, Keys);
      r
  }

  /** `process` with the kind it filters on left open. */
  function ProcessOfKind(kind: string, enabled: bool, bindings: seq<Binding>, props: PropertyMap): (r: PropertyMap)
    ensures !enabled ==> r == props
    ensures FilterBindings(bindings, kind) == [] ==> r == props
    ensures AgreeOutside(props, r, Keys)
    ensures enabled ==> TracksAll(FilterBindings(bindings, kind), props, r)
  {
    if !enabled then props
    else ApplyAll(FilterBindings(bindings, kind), props)
  }

  /** `process` as written: it filters on the kind "Cassandra". */
  function Process(enabled: bool, bindings: seq<Binding>, props: PropertyMap): (r: PropertyMap)
    ensures !enabled ==> r == props
    ensures FilterBindings(bindings, Kind) == [] ==> r == props
    ensures AgreeOutside(props, r, Keys)
    ensures enabled ==> TracksAll(FilterBindings(bindings, Kind), props, r)
  {
    ProcessOfKind(Kind, enabled, bindings, props)
  }

  /** `process` filtering on "Kafka", the kind its name and its keys are about. */
  function ProcessIntended(enabled: bool, bindings: seq<Binding>, props: PropertyMap): (r: PropertyMap)
    ensures !enabled ==> r == props
    ensures FilterBindings(bindings, IntendedKind) == [] ==> r == props
    ensures AgreeOutside(props, r, Keys)
    ensures enabled ==> TracksAll(FilterBindings(bindings, IntendedKind), props, r)
  {
    ProcessOfKind(IntendedKind, enabled, bindings, props)
  }

  /**
   As written, a "Kafka" binding is ignored while a "Cassandra" binding with a
   bootstrap-servers entry is mapped to the Kafka properties.
   */
  lemma KindMismatch(servers: string)
    ensures var kafka := Binding("broker", IntendedKind, "provider", map[ServersSource := servers]);
            && Process(true, [kafka], map[]) == map[]
            && ProcessIntended(true, [kafka], map[]) == map[ServersKey := Some(servers)]
    ensures var cassandra := Binding("store", "Cassandra", "provider", map[ServersSource := servers]);
            Process(true, [cassandra], map[])[ServersKey] == Some(servers)
  {
    var kafka := Binding("broker", IntendedKind, "provider", map[ServersSource := servers]);
    var cassandra := Binding("store", "Cassandra", "provider", map[ServersSource := servers]);
    assert [kafka][..0] == [] && [cassandra][..0] == [];
    assert FilterBindings([kafka], Kind) == [];
    assert FilterBindings([kafka], IntendedKind) == [kafka];
    assert FilterBindings([cassandra], Kind) == [cassandra];
    var r := ProcessIntended(true, [kafka], map[]);
    var expected: PropertyMap := map[ServersKey := Some(servers)];
    forall key
      ensures SameAt(r, expected, key)
    {
      if key !in Keys {
        assert SameAt(map[], r, key);
      } else if key != ServersKey {
        assert LastWith([kafka], ConsumerSource) == None;
        assert LastWith([kafka], ProducerSource) == None;
        assert LastWith([kafka], StreamsSource) == None;
      }
    }
    AgreeEverywhere(r, expected);
  }

  /** A binding of another kind changes nothing, wherever it stands in the list. */
  lemma {:induction false} IgnoresOtherKinds(kind: string, enabled: bool, a: seq<Binding>, b: Binding, c: seq<Binding>, props: PropertyMap)
    requires b.kind != kind
    ensures ProcessOfKind(kind, enabled, a + [b] + c, props) == ProcessOfKind(kind, enabled, a + c, props)
  {
    FilterSkipsOtherKind(a, b, c, kind);
  }

  /** Processing the same bindings again over its own output changes nothing. */
  lemma {:induction false} Idempotent(kind: string, enabled: bool, bindings: seq<Binding>, props: PropertyMap)
    ensures ProcessOfKind(kind, enabled, bindings, ProcessOfKind(kind, enabled, bindings, props))
         == ProcessOfKind(kind, enabled, bindings, props)
  {
    var once := ProcessOfKind(kind, enabled, bindings, props);
    var twice := ProcessOfKind(kind, enabled, bindings, once);
    if enabled {
      forall key
        ensures SameAt(twice, once, key)
      {
        if key !in Keys {
          assert SameAt(once, twice, key);
        }
      }
      AgreeEverywhere(twice, once);
    }
  }

  /**
   Several bindings: a target holds the value from the last binding that has
   its source key, even when a later binding lacks it.
   */
  lemma LastPresentWins(first: Binding, second: Binding, props: PropertyMap)
    requires first.kind == Kind && second.kind == Kind
    requires ServersSource in first.secret && ServersSource !in second.secret
    requires ConsumerSource in first.secret && ConsumerSource in second.secret
    ensures var r := Process(true, [first, second], props);
            && r[ServersKey] == Some(first.secret[ServersSource])
            && r[ConsumerKey] == Some(second.secret[ConsumerSource])
  {
    assert FilterBindings([first, second], Kind) == [first, second] by {
      assert [first, second][..1] == [first];
      assert [first][..0] == [];
    }
    assert [first, second][..1] == [first];
  }
}
