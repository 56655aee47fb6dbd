/** The server-sent event streams of the admin page (`events.rs`): slots, subscription, the frame
    loop with its cancellable select, and shutdown. A stream is a value that the steps below
    change; `EventStream` is the mutable form the service drives. */
module PushStream {

  import opened Wrappers
  import opened ChangeBus

  const MAX_EVENT_SUBSCRIBERS: nat := 4

  /** `at` is history: the channel version whose value the frame carries. */
  datatype Frame =
    | StatusFrame(json: string, at: nat)
    | TopicFrame(topic: nat, value: nat, at: nat)
    | PingFrame

  /** Where a request stands. The first four phases are `open_event_stream`, which never waits;
      the others are `next_frame`, which waits only when idle or selecting. */
  datatype Phase =
    | HoldsSlot
    | PassedShutdownCheck
    | StatusSubscribed
    | SubscribingTopics
    | Idle
    | CheckingShutdown
    | Selecting
    | ReadingStatus
    | ReadingTopic(topic: nat)

  /** `topics[i]` is the version of topic `i + 1` (all but Status) this stream last saw, and
      `subscribedAt[i]` the one it saw when it subscribed. */
  datatype Stream = Stream(
    phase: Phase,
    statusSeen: nat,
    topics: seq<nat>,
    sendStatusFirst: bool,
    subscribedAt: seq<nat>,
    frames: seq<Frame>,
    framesAfterShutdown: nat)

  const PUSHED_TOPICS: nat := TOPIC_COUNT - 1

  const FRESH_STREAM := Stream(HoldsSlot, 0, [], true, [], [], 0)

  function Emit(st: Stream, frame: Frame, shutdown: bool): Stream {
    st.(phase := Idle, frames := st.frames + [frame],
        framesAfterShutdown := st.framesAfterShutdown + if shutdown then 1 else 0)
  }

  /** Entry of `next_frame`: the first call sends the status at once if there is one. */
  function Polled(st: Stream, feed: Watch<string>, shutdown: bool): Stream {
    if st.sendStatusFirst then
      var marked := st.(sendStatusFirst := false, statusSeen := feed.version);
      if feed.value != [] then Emit(marked, StatusFrame(feed.value, feed.version), shutdown)
      else marked.(phase := CheckingShutdown)
    else st.(phase := CheckingShutdown)
  }

  /** `status.changed()` completes, marking the newest version as seen. */
  function StatusChanged(st: Stream, feed: Watch<string>): Stream {
    st.(phase := ReadingStatus, statusSeen := feed.version)
  }

  function StatusRead(st: Stream, feed: Watch<string>, shutdown: bool): Stream {
    Emit(st.(statusSeen := feed.version), StatusFrame(feed.value, feed.version), shutdown)
  }

  /** One topic's `changed()` completes; the other topics' waits are dropped unfinished. */
  function TopicChanged(st: Stream, topic: nat, sender: Watch<nat>): Stream
    requires 1 <= topic <= |st.topics|
  {
    st.(phase := ReadingTopic(topic), topics := st.topics[topic - 1 := sender.version])
  }

  function TopicRead(st: Stream, topic: nat, sender: Watch<nat>, shutdown: bool): Stream
    requires 1 <= topic <= |st.topics|
  {
    Emit(st.(topics := st.topics[topic - 1 := sender.version]),
         TopicFrame(topic, sender.value, sender.version), shutdown)
  }

  // ---------- the mutable stream ----------

  /** The branch of the select that completes, with the channel as it stands when the wait ends
      and as it stands when it is read a moment later. */
  datatype Branch =
    | ShutdownBranch
    | StatusBranch(changed: Watch<string>, read: Watch<string>)
    | TopicBranch(topic: nat, changedTo: Watch<nat>, readAs: Watch<nat>)
    | PingBranch

  function AfterNextFrame(st: Stream, feed: Watch<string>, shutdown: bool, branch: Branch): (Stream, bool)
    requires branch.TopicBranch? ==> 1 <= branch.topic <= |st.topics|
  {
    var polled := Polled(st, feed, shutdown);
    if polled.phase.Idle? then (polled, true)
    else if shutdown then (polled, false)
    else
      match branch
      case ShutdownBranch => (polled, false)
      case StatusBranch(changed, read) => (StatusRead(StatusChanged(polled, changed), read, shutdown), true)
      case TopicBranch(topic, changed, read) =>
        (TopicRead(TopicChanged(polled, topic, changed), topic, read, shutdown), true)
      case PingBranch => (Emit(polled, PingFrame, shutdown), true)
  }

  class EventStream {
    var statusSeen: nat
    var topics: seq<nat>
    var sendStatusFirst: bool
    ghost var subscribedAt: seq<nat>
    ghost var frames: seq<Frame>

    constructor (statusSeen: nat, topics: seq<nat>)
      ensures Contents() == Stream(Idle, statusSeen, topics, true, topics, [], 0)
    {
      this.statusSeen := statusSeen;
      this.topics := topics;
      this.subscribedAt := topics;
      sendStatusFirst := true;
      frames := [];
    }

    ghost function Contents(): Stream
      reads this
    {
      Stream(Idle, statusSeen, topics, sendStatusFirst, subscribedAt, frames, 0)
    }

    /** `next_frame`, with the branch of the select that completes first. */
    method NextFrame(feed: Watch<string>, shutdown: bool, branch: Branch) returns (frame: Option<Frame>)
      requires branch.TopicBranch? ==> 1 <= branch.topic <= |topics|
      modifies this
      ensures var (after, sent) := AfterNextFrame(old(Contents()), feed, shutdown, branch);
              && Contents() == after.(phase := Idle, framesAfterShutdown := 0)
              && frame == if sent then Some(after.frames[|after.frames| - 1]) else None
    {
      if sendStatusFirst {
        sendStatusFirst := false;
        statusSeen := feed.version;
        if feed.value != [] {
          frame := Some(StatusFrame(feed.value, feed.version));
          frames := frames + [frame.value];
          return;
        }
      }
      if shutdown {
        return None;
      }
      match branch {
        case ShutdownBranch =>
          return None;
        case StatusBranch(changed, read) =>
          statusSeen := changed.version;
          statusSeen := read.version;
          frame := Some(StatusFrame(read.value, read.version));
        case TopicBranch(topic, changedTo, readAs) =>
          topics := topics[topic - 1 := changedTo.version];
          topics := topics[topic - 1 := readAs.version];
          frame := Some(TopicFrame(topic, readAs.value, readAs.version));
        case PingBranch =>
          frame := Some(PingFrame);
      }
      frames := frames + [frame.value];
    }
  }

  // ---------- the whole service ----------

  /** The status sampler: it looks for subscribers, parks if there are none, otherwise publishes
      and sleeps. */
  datatype Sampler = Checking | Parking | Publishing | Sleeping

  datatype Service = Service(
    bus: seq<Watch<nat>>,
    feed: Watch<string>,
    shutdown: bool,
    freeSlots: nat,
    streams: map<nat, Stream>,
    permit: bool,
    sampler: Sampler)

  function Boot(): Service {
    Service(FreshBus(), Watch([], 0), false, MAX_EVENT_SUBSCRIBERS, map[], false, Checking)
  }

  predicate HasStatusReceiver(st: Stream) {
    !st.phase.HoldsSlot? && !st.phase.PassedShutdownCheck?
  }

  predicate IsOpen(st: Stream) {
    HasStatusReceiver(st) && !st.phase.StatusSubscribed? && !st.phase.SubscribingTopics?
  }

  predicate AnyReceiver(s: Service) {
    exists id :: id in s.streams && HasStatusReceiver(s.streams[id])
  }

  datatype Event =
    | Bumps(topic: Topic)
    | ShutdownFires
    | SamplerChecks
    | SamplerWakes
    | SamplerPublishes(json: Option<string>)
    | SamplerSleepEnds
    | TakesSlot(id: nat)
    | ChecksShutdownOnOpen(id: nat)
    | SubscribesStatus(id: nat)
    | NotifiesSampler(id: nat)
    | SubscribesTopic(id: nat)
    | OpeningEnds(id: nat)
    | IsPolled(id: nat)
    | ChecksShutdown(id: nat)
    | ShutdownBranchReady(id: nat)
    | StatusBranchReady(id: nat)
    | ReadsStatus(id: nat)
    | TopicBranchReady(id: nat, pushed: nat)
    | ReadsTopic(id: nat)
    | Pings(id: nat)
    | ClientDrops(id: nat)

  function Ends(s: Service, id: nat): Service {
    s.(streams := s.streams - {id}, freeSlots := s.freeSlots + 1)
  }

  function Moves(s: Service, id: nat, st: Stream): Service {
    s.(streams := s.streams[id := st])
  }

  /** The step of one request or stream; a step that is not enabled changes nothing. */
  function StreamStep(s: Service, id: nat, st: Stream, e: Event): (s': Service)
    requires |s.bus| == TOPIC_COUNT
    ensures s'.bus == s.bus
  {
    match e
    case ChecksShutdownOnOpen(_) =>
      if !st.phase.HoldsSlot? then s
      else if s.shutdown then Ends(s, id)
      else Moves(s, id, st.(phase := PassedShutdownCheck))
    case SubscribesStatus(_) =>
      if !st.phase.PassedShutdownCheck? then s
      else Moves(s, id, st.(phase := StatusSubscribed, statusSeen := s.feed.version))
    case NotifiesSampler(_) =>
      if !st.phase.StatusSubscribed? then s
      else Moves(s.(permit := true), id, st.(phase := SubscribingTopics))
    case SubscribesTopic(_) =>
      if !st.phase.SubscribingTopics? || |st.topics| >= PUSHED_TOPICS then s
      else
        var seen := s.bus[|st.topics| + 1].version;
        Moves(s, id, st.(topics := st.topics + [seen], subscribedAt := st.subscribedAt + [seen]))
    case OpeningEnds(_) =>
      if !st.phase.SubscribingTopics? || |st.topics| != PUSHED_TOPICS then s
      else Moves(s, id, st.(phase := Idle))
    case IsPolled(_) =>
      if !st.phase.Idle? then s else Moves(s, id, Polled(st, s.feed, s.shutdown))
    case ChecksShutdown(_) =>
      if !st.phase.CheckingShutdown? then s
      else if s.shutdown then Ends(s, id)
      else Moves(s, id, st.(phase := Selecting))
    case ShutdownBranchReady(_) =>
      if st.phase.Selecting? && s.shutdown then Ends(s, id) else s
    case StatusBranchReady(_) =>
      if st.phase.Selecting? && st.statusSeen != s.feed.version then Moves(s, id, StatusChanged(st, s.feed)) else s
    case ReadsStatus(_) =>
      if st.phase.ReadingStatus? then Moves(s, id, StatusRead(st, s.feed, s.shutdown)) else s
    case TopicBranchReady(_, t) =>
      if st.phase.Selecting? && 1 <= t <= |st.topics| && t < TOPIC_COUNT && st.topics[t - 1] != s.bus[t].version
      then Moves(s, id, TopicChanged(st, t, s.bus[t])) else s
    case ReadsTopic(_) =>
      if st.phase.ReadingTopic? && 1 <= st.phase.topic <= |st.topics| && st.phase.topic < TOPIC_COUNT
      then Moves(s, id, TopicRead(st, st.phase.topic, s.bus[st.phase.topic], s.shutdown)) else s
    case Pings(_) =>
      if st.phase.Selecting? then Moves(s, id, Emit(st, PingFrame, s.shutdown)) else s
    case ClientDrops(_) =>
      if st.phase.Idle? || st.phase.Selecting? then Ends(s, id) else s
    case _ => s
  }

  predicate IsStreamEvent(e: Event) {
    !(e.Bumps? || e.ShutdownFires? || e.SamplerChecks? || e.SamplerWakes? || e.SamplerPublishes?
      || e.SamplerSleepEnds? || e.TakesSlot?)
  }

  function Step(s: Service, e: Event): (s': Service)
    requires |s.bus| == TOPIC_COUNT
    ensures |s'.bus| == TOPIC_COUNT
  {
    match e
    case Bumps(topic) => s.(bus := BumpedBus(s.bus, topic))
    case ShutdownFires => s.(shutdown := true)
    case SamplerChecks =>
      if s.sampler.Checking? then s.(sampler := if AnyReceiver(s) then Publishing else Parking) else s
    case SamplerWakes =>
      if s.sampler.Parking? && s.permit then s.(permit := false, sampler := Checking) else s
    case SamplerPublishes(json) =>
      if !s.sampler.Publishing? then s
      else if json.None? || json.value == s.feed.value then s.(sampler := Sleeping)
      else s.(sampler := Sleeping, feed := Watch(json.value, s.feed.version + 1))
    case SamplerSleepEnds => if s.sampler.Sleeping? then s.(sampler := Checking) else s
    case TakesSlot(id) =>
      if s.freeSlots == 0 || id in s.streams then s
      else s.(freeSlots := s.freeSlots - 1, streams := s.streams[id := FRESH_STREAM])
    case _ => if e.id in s.streams then StreamStep(s, e.id, s.streams[e.id], e) else s
  }

  function Run(events: seq<Event>): (s: Service)
    ensures |s.bus| == TOPIC_COUNT
  {
    if events == [] then Boot() else Step(Run(events[..|events| - 1]), events[|events| - 1])
  }
}
