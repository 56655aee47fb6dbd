/** The change bus of the admin page: one watch channel per topic (`change_bus.rs`). A watch
    channel is a value with a hidden version; a receiver remembers the version it last saw. */
module ChangeBus {

  datatype Topic =
    | Status | Overrides | Providers | CacheConfig | Geoip | Maxmind | Cctld
    | RatingFilter | BlocklistBundles | Log

  const ALL: seq<Topic> := [
    Status, Overrides, Providers, CacheConfig, Geoip, Maxmind, Cctld, RatingFilter, BlocklistBundles, Log]

  const TOPIC_COUNT: nat := 10

  function Index(topic: Topic): (i: nat)
    ensures i < TOPIC_COUNT && i < |ALL| && ALL[i] == topic
  {
    match topic
    case Status => 0
    case Overrides => 1
    case Providers => 2
    case CacheConfig => 3
    case Geoip => 4
    case Maxmind => 5
    case Cctld => 6
    case RatingFilter => 7
    case BlocklistBundles => 8
    case Log => 9
  }

  const U64_VALUES: nat := 0x1_0000_0000_0000_0000

  datatype Watch<T> = Watch(value: T, version: nat)

  /** `wrapping_add(1)`. */
  function WrappingSucc(value: nat): nat {
    (value + 1) % U64_VALUES
  }

  function Bumped(w: Watch<nat>): Watch<nat> {
    Watch(WrappingSucc(w.value), w.version + 1)
  }

  /** A bus whose counters have only ever been bumped: each value is its version, wrapped. */
  predicate BusOk(senders: seq<Watch<nat>>) {
    && |senders| == TOPIC_COUNT
    && forall i :: 0 <= i < TOPIC_COUNT ==> senders[i].value == senders[i].version % U64_VALUES
  }

  function FreshBus(): (senders: seq<Watch<nat>>)
    ensures BusOk(senders)
  {
    seq(TOPIC_COUNT, _ => Watch(0, 0))
  }

  function BumpedBus(senders: seq<Watch<nat>>, topic: Topic): seq<Watch<nat>>
    requires |senders| == TOPIC_COUNT
  {
    senders[Index(topic) := Bumped(senders[Index(topic)])]
  }

  lemma WrappedSuccessor(version: nat)
    ensures WrappingSucc(version % U64_VALUES) == (version + 1) % U64_VALUES
  {
  }

  /** A bump moves its own topic one version on, wraps its value, and touches no other topic. */
  lemma BumpKeepsBusOk(senders: seq<Watch<nat>>, topic: Topic)
    requires BusOk(senders)
    ensures BusOk(BumpedBus(senders, topic))
    ensures forall other :: BumpedBus(senders, topic)[Index(other)].version
              == senders[Index(other)].version + if other == topic then 1 else 0
  {
    WrappedSuccessor(senders[Index(topic)].version);
    forall other: Topic
      ensures BumpedBus(senders, topic)[Index(other)].version
           == senders[Index(other)].version + if other == topic then 1 else 0
    {
      assert ALL[Index(other)] == other && ALL[Index(topic)] == topic;
    }
  }

  class Bus {
    const senders: array<Watch<nat>>

    ghost predicate Valid()
      reads this, senders
    {
      BusOk(senders[..])
    }

    constructor ()
      ensures Valid() && fresh(senders) && senders[..] == FreshBus()
    {
      senders := new Watch<nat>[TOPIC_COUNT](_ => Watch(0, 0));
    }

    method Bump(topic: Topic)
      requires Valid()
      modifies senders
      ensures Valid() && senders[..] == BumpedBus(old(senders[..]), topic)
    {
      BumpKeepsBusOk(senders[..], topic);
      senders[Index(topic)] := Bumped(senders[Index(topic)]);
    }

    /** A receiver that has seen everything sent so far. */
    method Subscribe(topic: Topic) returns (seen: nat)
      requires Valid()
      ensures seen == senders[Index(topic)].version
    {
      seen := senders[Index(topic)].version;
    }
  }
}
