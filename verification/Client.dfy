/** The MCP client (internal/mcpclient/client.go) at work with the server: a system of
    interleaved steps over two ordered streams, a bounded channel and a reader. */
module Client {
  import opened Results
  import opened Strings
  import opened JsonRpc

  // ----- ids

  /** The JSON text of the n-th id: the number as a string. */
  function EncodedId(n: nat): (s: string)
    ensures s != ""
  {
    "\"" + Itoa(n) + "\""
  }

  lemma {:induction false} EncodedIdInjective(m: nat, n: nat)
    requires EncodedId(m) == EncodedId(n)
    ensures m == n
  {
    assert EncodedId(m)[1..|EncodedId(m)| - 1] == Itoa(m);
    assert EncodedId(n)[1..|EncodedId(n)| - 1] == Itoa(n);
    ItoaInjective(m, n);
  }

  // ----- the system

  const CHANNEL_CAPACITY := 8

  /** What the proof needs of the two ends: the state of the server after a message, its reply
      to a message in a state, and the ids of the client. */
  datatype Ends<!S> = Ends(after: (S, Message) -> S, reply: (S, Message) -> Option<Reply>, idOf: nat -> string)

  ghost predicate AreDistinct(idOf: nat -> string)
  {
    && (forall n: nat {:trigger idOf(n)} :: idOf(n) != "")
    && forall m: nat, n: nat {:trigger idOf(m), idOf(n)} :: idOf(m) == idOf(n) ==> m == n
  }

  /** Replies echo the id of their message, a message without an id gets none, and ids are
      distinct. */
  ghost predicate AreFit<S(!new)>(ends: Ends<S>)
  {
    && AreDistinct(ends.idOf)
    && forall s, m {:trigger ends.reply(s, m)} :: ends.reply(s, m).Some? ==> m.id != "" && ends.reply(s, m).value.id == m.id
  }

  /** The server and the client of the repository. */
  function TheEnds<S>(tools: Tools<S>): Ends<S>
  {
    Ends((s, m) => StateAfter(tools, s, m), (s, m) => ReplyTo(tools, s, m), EncodedId)
  }

  lemma {:induction false} TheEndsAreFit<S(!new)>(tools: Tools<S>)
    ensures AreFit(TheEnds(tools))
    ensures forall s, m {:trigger TheEnds(tools).reply(s, m)} ::
      TheEnds(tools).reply(s, m).Some? <==> m.id != "" && !IsNotificationMethod(m.name)
  {
    forall m: nat, n: nat | EncodedId(m) == EncodedId(n) ensures m == n {
      EncodedIdInjective(m, n);
    }
  }

  /** What a call returns. `Closed` is any report that the transport is gone. */
  datatype Outcome = Replied(reply: Reply) | Cancelled | Closed | NotWritten

  /** `sent`, `numbers` and `consumed` are histories: every message the client has written,
      the number in its id (0 for a notification), and every reply taken from the channel.
      `waiting` says that a call holds the mutex. */
  datatype System<!S> = System(
    nextId: nat,
    waiting: bool,
    sent: seq<Message>,
    numbers: seq<nat>,
    served: nat,
    server: S,
    toClient: seq<Reply>,
    inHand: Option<Reply>,
    channel: seq<Reply>,
    readError: bool,
    closed: bool,
    consumed: seq<Reply>)

  datatype Event =
    | Call(name: string, params: string)
    | CallNotWritten
    | Notify(name: string, params: string)
    | ServerStep
    | ReaderScans
    | ReaderPushes
    | ReaderStops
    | Receive
    | Cancel
    | SeeReadError
    | SeeClosed

  function Initial<S>(s: S): System<S>
  {
    System(0, false, [], [], 0, s, [], None, [], false, false, [])
  }

  /** Which steps can happen in a state. */
  predicate IsEnabled<S>(st: System<S>, e: Event)
  {
    match e
    case Call(_, _) => !st.waiting
    case CallNotWritten => !st.waiting
    case Notify(_, _) => !st.waiting
    case ServerStep => st.served < |st.sent|
    case ReaderScans => !st.closed && st.inHand == None && st.toClient != []
    case ReaderPushes => st.inHand.Some? && |st.channel| < CHANNEL_CAPACITY
    case ReaderStops => !st.closed && st.inHand == None
    case Receive => st.waiting && st.channel != []
    case Cancel => st.waiting
    case SeeReadError => st.waiting && st.readError
    case SeeClosed => st.waiting && st.closed && st.channel == []
  }

  /** One step. The server takes the messages in the order they were sent; the reader stops on
      any error or at the end of the stream; a waiting call takes whatever `select` offers. */
  function Next<S>(ends: Ends<S>, st: System<S>, e: Event): System<S>
    requires IsEnabled(st, e)
  {
    match e
    case Call(name, params) =>
      st.(nextId := st.nextId + 1, waiting := true,
          sent := st.sent + [Message(ends.idOf(st.nextId + 1), name, params)], numbers := st.numbers + [st.nextId + 1])
    case CallNotWritten => st.(nextId := st.nextId + 1)
    case Notify(name, params) => st.(sent := st.sent + [Message("", name, params)], numbers := st.numbers + [0])
    case ServerStep =>
      var m := st.sent[st.served];
      st.(served := st.served + 1, server := ends.after(st.server, m),
          toClient := st.toClient + Written(ends.reply(st.server, m)))
    case ReaderScans => st.(inHand := Some(st.toClient[0]), toClient := st.toClient[1..])
    case ReaderPushes => st.(inHand := None, channel := st.channel + [st.inHand.value])
    case ReaderStops => st.(readError := true, closed := true)
    case Receive =>
      st.(channel := st.channel[1..], consumed := st.consumed + [st.channel[0]],
          waiting := st.channel[0].id != ends.idOf(st.nextId))
    case Cancel => st.(waiting := false)
    case SeeReadError => st.(waiting := false, readError := false)
    case SeeClosed => st.(waiting := false)
  }

  /** What the step returns to the caller, if it ends a call. */
  function Returned<S>(ends: Ends<S>, st: System<S>, e: Event): Option<Outcome>
    requires IsEnabled(st, e)
  {
    match e
    case CallNotWritten => Some(NotWritten)
    case Receive => if st.channel[0].id == ends.idOf(st.nextId) then Some(Replied(st.channel[0])) else None
    case Cancel => Some(Cancelled)
    case SeeReadError => Some(Closed)
    case SeeClosed => Some(Closed)
    case _ => None
  }

  function Written(reply: Option<Reply>): seq<Reply>
  {
    if reply.Some? then [reply.value] else []
  }

  /** The replies on their way to the client, oldest first. */
  function Pipe<S>(st: System<S>): seq<Reply>
  {
    st.channel + Written(st.inHand) + st.toClient
  }

  /** The state of the server after the messages `sent`, one by one. */
  function StateAt<S>(ends: Ends<S>, s: S, sent: seq<Message>): S
  {
    if sent == [] then s else ends.after(StateAt(ends, s, sent[..|sent| - 1]), sent[|sent| - 1])
  }

  /** The reply to the k-th message sent, computed after the messages before it. */
  function ReplyAt<S>(ends: Ends<S>, s: S, sent: seq<Message>, k: nat): Option<Reply>
    requires k < |sent|
  {
    ends.reply(StateAt(ends, s, sent[..k]), sent[k])
  }

  /** The replies to the messages `sent`. */
  function Replies<S>(ends: Ends<S>, s: S, sent: seq<Message>): seq<Reply>
  {
    if sent == [] then []
    else Replies(ends, s, sent[..|sent| - 1]) + Written(ReplyAt(ends, s, sent, |sent| - 1))
  }

  function AsLines(sent: seq<Message>): (lines: seq<Line>)
    ensures |lines| == |sent| && forall i :: 0 <= i < |lines| ==> lines[i] == Parsed(sent[i])
  {
    seq(|sent|, i requires 0 <= i < |sent| => Parsed(sent[i]))
  }

  /** What the message loop of the server writes for these messages. */
  lemma {:induction false} RepliesAreTheServers<S>(tools: Tools<S>, s: S, sent: seq<Message>)
    ensures Replies(TheEnds(tools), s, sent) == RepliesTo(tools, s, AsLines(sent))
    ensures StateAt(TheEnds(tools), s, sent) == StateAfterAll(tools, s, AsLines(sent))
  {
    if sent != [] {
      var lines, front := AsLines(sent), sent[..|sent| - 1];
      assert lines[..|lines| - 1] == AsLines(front);
      RepliesAreTheServers(tools, s, front);
    }
  }

  // ----- where replies come from

  /** Serving one more message adds its reply and nothing else. */
  lemma {:induction false} ServeOneMore<S>(ends: Ends<S>, s: S, sent: seq<Message>, k: nat)
    requires k < |sent|
    ensures Replies(ends, s, sent[..k + 1]) == Replies(ends, s, sent[..k]) + Written(ReplyAt(ends, s, sent, k))
    ensures StateAt(ends, s, sent[..k + 1]) == ends.after(StateAt(ends, s, sent[..k]), sent[k])
  {
    assert sent[..k + 1][..k] == sent[..k];
  }

  function Present(slots: seq<Option<Reply>>): seq<Reply>
  {
    if slots == [] then [] else Present(slots[..|slots| - 1]) + Written(slots[|slots| - 1])
  }

  /** One slot for each of the first `k` messages. */
  function Slots<S>(ends: Ends<S>, s: S, sent: seq<Message>, k: nat): (r: seq<Option<Reply>>)
    requires k <= |sent|
    ensures |r| == k && forall i :: 0 <= i < k ==> r[i] == ReplyAt(ends, s, sent, i)
  {
    seq(k, i requires 0 <= i < k => ReplyAt(ends, s, sent, i))
  }

  lemma {:induction false} RepliesFillSlots<S>(ends: Ends<S>, s: S, sent: seq<Message>, k: nat)
    requires k <= |sent|
    ensures Replies(ends, s, sent[..k]) == Present(Slots(ends, s, sent, k))
  {
    if k > 0 {
      RepliesFillSlots(ends, s, sent, k - 1);
      ServeOneMore(ends, s, sent, k - 1);
      assert Slots(ends, s, sent, k)[..k - 1] == Slots(ends, s, sent, k - 1);
    }
  }

  /** The i-th reply comes from slot `origin[i]`, and they come in the order of their slots. */
  ghost predicate AreFrom(slots: seq<Option<Reply>>, replies: seq<Reply>, origin: seq<nat>)
  {
    && |origin| == |replies|
    && (forall i :: 0 <= i < |origin| ==> origin[i] < |slots| && slots[origin[i]] == Some(replies[i]))
    && forall i, j :: 0 <= i < j < |origin| ==> origin[i] < origin[j]
  }

  lemma {:induction false} OneMoreSlot(slots: seq<Option<Reply>>, slot: Option<Reply>, replies: seq<Reply>, origin: seq<nat>)
    requires AreFrom(slots, replies, origin)
    ensures AreFrom(slots + [slot], replies + Written(slot), if slot.Some? then origin + [|slots|] else origin)
  {
  }

  lemma {:induction false} PresentOrigins(slots: seq<Option<Reply>>) returns (origin: seq<nat>)
    ensures AreFrom(slots, Present(slots), origin)
  {
    if slots == [] {
      origin := [];
    } else {
      hide Present, AreFrom, Written;
      var front, last := slots[..|slots| - 1], slots[|slots| - 1];
      assert slots == front + [last];
      var before := PresentOrigins(front);
      OneMoreSlot(front, last, Present(front), before);
      PresentOfMore(front, last);
      origin := if last.Some? then before + [|front|] else before;
    }
  }

  lemma {:induction false} PresentOfMore(slots: seq<Option<Reply>>, slot: Option<Reply>)
    ensures Present(slots + [slot]) == Present(slots) + Written(slot)
  {
    assert (slots + [slot])[..|slots|] == slots;
  }

  /** Each reply belongs to one message, and replies come in the order of their messages. */
  lemma {:induction false} Origins<S>(ends: Ends<S>, s: S, sent: seq<Message>, k: nat) returns (origin: seq<nat>)
    requires k <= |sent|
    ensures var replies := Replies(ends, s, sent[..k]);
      && |origin| == |replies|
      && (forall i :: 0 <= i < |origin| ==> origin[i] < k && ReplyAt(ends, s, sent, origin[i]) == Some(replies[i]))
      && (forall i, j :: 0 <= i < j < |origin| ==> origin[i] < origin[j])
  {
    RepliesFillSlots(ends, s, sent, k);
    origin := PresentOrigins(Slots(ends, s, sent, k));
  }

  // ----- the invariant

  /** Numbers other than 0 ascend and stay below `max`, inclusively. */
  ghost predicate Ascend(numbers: seq<nat>, max: nat)
    decreases |numbers|
  {
    numbers == [] ||
    (var front, last := numbers[..|numbers| - 1], numbers[|numbers| - 1];
     if last == 0 then Ascend(front, max) else last <= max && Ascend(front, last - 1))
  }

  lemma {:induction false} AscendAt(numbers: seq<nat>, max: nat, i: nat, j: nat)
    requires Ascend(numbers, max) && i <= j < |numbers| && numbers[i] > 0
    ensures numbers[i] <= max
    ensures i < j && numbers[j] > 0 ==> numbers[i] < numbers[j]
    decreases |numbers|
  {
    var front, last := numbers[..|numbers| - 1], numbers[|numbers| - 1];
    var below := if last == 0 then max else last - 1;
    if j < |front| {
      AscendAt(front, below, i, j);
    } else if i < j {
      AscendAt(front, below, i, i);
    }
  }

  lemma {:induction false} AscendMore(numbers: seq<nat>, max: nat, more: nat)
    requires Ascend(numbers, max) && max <= more
    ensures Ascend(numbers, more)
    decreases |numbers|
  {
    if numbers != [] && numbers[|numbers| - 1] == 0 {
      AscendMore(numbers[..|numbers| - 1], max, more);
    }
  }

  /** The id of a message says its number, and 0 stands for no id. */
  ghost predicate IsNumbered(idOf: nat -> string, m: Message, number: nat)
  {
    m.id == if number == 0 then "" else idOf(number)
  }

  ghost predicate AreNumbered(idOf: nat -> string, sent: seq<Message>, numbers: seq<nat>)
  {
    |numbers| == |sent| && forall i :: 0 <= i < |sent| ==> IsNumbered(idOf, sent[i], numbers[i])
  }

  ghost predicate NoneHasId(replies: seq<Reply>, id: string)
  {
    forall i :: 0 <= i < |replies| ==> replies[i].id != id
  }

  /** The request of a waiting call is the last message sent, and its reply has not been
      taken yet. */
  ghost predicate CallIsOpen(idOf: nat -> string, numbers: seq<nat>, nextId: nat, consumed: seq<Reply>)
  {
    numbers != [] && nextId > 0 && numbers[|numbers| - 1] == nextId && NoneHasId(consumed, idOf(nextId))
  }

  /** Nothing is lost, repeated or reordered between the server and the client: the server is
      where the messages it has served have led it, and `replies` are its replies to them. */
  ghost predicate IsServed<S>(ends: Ends<S>, s: S, sent: seq<Message>, served: nat, server: S, replies: seq<Reply>)
  {
    && served <= |sent|
    && server == StateAt(ends, s, sent[..served])
    && replies == Replies(ends, s, sent[..served])
  }

  ghost predicate Inv<S(!new)>(ends: Ends<S>, s: S, st: System<S>)
  {
    && AreFit(ends) && |st.channel| <= CHANNEL_CAPACITY
    && IsServed(ends, s, st.sent, st.served, st.server, st.consumed + Pipe(st))
    && AreNumbered(ends.idOf, st.sent, st.numbers) && Ascend(st.numbers, st.nextId)
    && (st.waiting ==> CallIsOpen(ends.idOf, st.numbers, st.nextId, st.consumed))
  }

  lemma {:induction false} SendingServesNothing<S(!new)>(ends: Ends<S>, s: S, sent: seq<Message>, served: nat, server: S,
      replies: seq<Reply>, m: Message)
    requires IsServed(ends, s, sent, served, server, replies)
    ensures IsServed(ends, s, sent + [m], served, server, replies)
  {
    assert (sent + [m])[..served] == sent[..served];
  }

  /** The number of the message that the i-th reply belongs to. */
  lemma {:induction false} NumberOfReply<S(!new)>(ends: Ends<S>, s: S, st: System<S>, i: nat, origin: seq<nat>)
    requires Inv(ends, s, st) && i < |Replies(ends, s, st.sent[..st.served])|
    requires var replies := Replies(ends, s, st.sent[..st.served]);
      |origin| == |replies| && origin[i] < st.served && ReplyAt(ends, s, st.sent, origin[i]) == Some(replies[i])
    ensures var reply := Replies(ends, s, st.sent[..st.served])[i];
      0 < st.numbers[origin[i]] <= st.nextId && reply.id == ends.idOf(st.numbers[origin[i]])
  {
    assert IsNumbered(ends.idOf, st.sent[origin[i]], st.numbers[origin[i]]);
    AscendAt(st.numbers, st.nextId, origin[i], origin[i]);
  }

  lemma {:induction false} ConsumedIsOld<S(!new)>(ends: Ends<S>, s: S, st: System<S>)
    requires Inv(ends, s, st)
    ensures NoneHasId(st.consumed, ends.idOf(st.nextId + 1))
  {
    var origin := Origins(ends, s, st.sent, st.served);
    forall i | 0 <= i < |st.consumed| ensures st.consumed[i].id != ends.idOf(st.nextId + 1) {
      assert (st.consumed + Pipe(st))[i] == st.consumed[i];
      NumberOfReply(ends, s, st, i, origin);
    }
  }

  lemma {:induction false} CallKeepsInv<S(!new)>(ends: Ends<S>, s: S, st: System<S>, name: string, params: string)
    requires Inv(ends, s, st) && !st.waiting
    ensures Inv(ends, s, Next(ends, st, Call(name, params)))
  {
    var st' := Next(ends, st, Call(name, params));
    ConsumedIsOld(ends, s, st);
    var m := Message(ends.idOf(st.nextId + 1), name, params);
    SendingNumbers(ends.idOf, st.sent, st.numbers, st.nextId, m, st.nextId + 1);
    SendingServesNothing(ends, s, st.sent, st.served, st.server, st.consumed + Pipe(st), m);
    assert Pipe(st') == Pipe(st) && st'.sent == st.sent + [m];
  }

  /** A message sent next continues the numbering. */
  lemma {:induction false} SendingNumbers(idOf: nat -> string, sent: seq<Message>, numbers: seq<nat>, nextId: nat, m: Message, number: nat)
    requires AreNumbered(idOf, sent, numbers) && Ascend(numbers, nextId)
    requires IsNumbered(idOf, m, number) && (number == 0 || number == nextId + 1)
    ensures AreNumbered(idOf, sent + [m], numbers + [number])
    ensures Ascend(numbers + [number], if number == 0 then nextId else number)
  {
    assert (numbers + [number])[..|numbers|] == numbers;
  }

  lemma {:induction false} NotifyKeepsInv<S(!new)>(ends: Ends<S>, s: S, st: System<S>, name: string, params: string)
    requires Inv(ends, s, st) && !st.waiting
    ensures Inv(ends, s, Next(ends, st, Notify(name, params)))
  {
    var st' := Next(ends, st, Notify(name, params));
    var m := Message("", name, params);
    SendingNumbers(ends.idOf, st.sent, st.numbers, st.nextId, m, 0);
    SendingServesNothing(ends, s, st.sent, st.served, st.server, st.consumed + Pipe(st), m);
    assert Pipe(st') == Pipe(st) && st'.sent == st.sent + [m];
  }

  lemma {:induction false} GivingUpKeepsInv<S(!new)>(ends: Ends<S>, s: S, st: System<S>, e: Event)
    requires Inv(ends, s, st) && IsEnabled(st, e)
    requires e.CallNotWritten? || e.Cancel? || e.SeeReadError? || e.SeeClosed?
    ensures Inv(ends, s, Next(ends, st, e))
  {
    var st' := Next(ends, st, e);
    AscendMore(st.numbers, st.nextId, st.nextId + 1);
    assert Pipe(st') == Pipe(st) && st'.sent == st.sent && st'.numbers == st.numbers;
  }

  /** How the server, the reader and a receiving call move replies along: the consumed ones
      followed by those in the pipe. */
  lemma {:induction false} PipeMoves<S(!new)>(ends: Ends<S>, st: System<S>, e: Event)
    requires IsEnabled(st, e) && (e.ServerStep? || e.ReaderScans? || e.ReaderPushes? || e.ReaderStops? || e.Receive?)
    ensures var st' := Next(ends, st, e);
      st'.consumed + Pipe(st') == st.consumed + Pipe(st)
        + if e.ServerStep? then Written(ends.reply(st.server, st.sent[st.served])) else []
  {
    var st' := Next(ends, st, e);
    if e.ServerStep? {
      Regroup(st.consumed, st.channel + Written(st.inHand), st.toClient, Written(ends.reply(st.server, st.sent[st.served])));
    } else if e.Receive? {
      TakeFirst(st.consumed, st.channel, Written(st.inHand), st.toClient);
    } else {
      assert Pipe(st') == Pipe(st);
    }
  }

  lemma {:induction false} Regroup(a: seq<Reply>, b: seq<Reply>, c: seq<Reply>, d: seq<Reply>)
    ensures a + (b + (c + d)) == a + (b + c) + d
  {
  }

  lemma {:induction false} TakeFirst(consumed: seq<Reply>, channel: seq<Reply>, hand: seq<Reply>, rest: seq<Reply>)
    requires channel != []
    ensures consumed + [channel[0]] + (channel[1..] + hand + rest) == consumed + (channel + hand + rest)
  {
    assert [channel[0]] + channel[1..] == channel;
    assert [channel[0]] + (channel[1..] + hand + rest) == channel + hand + rest;
  }

  lemma {:induction false} ServerKeepsInv<S(!new)>(ends: Ends<S>, s: S, st: System<S>)
    requires Inv(ends, s, st) && st.served < |st.sent|
    ensures Inv(ends, s, Next(ends, st, ServerStep))
  {
    ServeOneMore(ends, s, st.sent, st.served);
    PipeMoves(ends, st, ServerStep);
  }

  lemma {:induction false} ReaderKeepsInv<S(!new)>(ends: Ends<S>, s: S, st: System<S>, e: Event)
    requires Inv(ends, s, st) && IsEnabled(st, e) && (e.ReaderScans? || e.ReaderPushes? || e.ReaderStops?)
    ensures Inv(ends, s, Next(ends, st, e))
  {
    PipeMoves(ends, st, e);
  }

  lemma {:induction false} ReceiveKeepsInv<S(!new)>(ends: Ends<S>, s: S, st: System<S>)
    requires Inv(ends, s, st) && IsEnabled(st, Receive)
    ensures Inv(ends, s, Next(ends, st, Receive))
  {
    PipeMoves(ends, st, Receive);
  }

  /** Every step keeps the invariant, whatever the client, the reader and the server do next
      and wherever a call is cancelled. */
  lemma {:induction false} StepKeepsInv<S(!new)>(ends: Ends<S>, s: S, st: System<S>, e: Event)
    requires Inv(ends, s, st) && IsEnabled(st, e)
    ensures Inv(ends, s, Next(ends, st, e))
  {
    match e
    case Call(name, params) => CallKeepsInv(ends, s, st, name, params);
    case Notify(name, params) => NotifyKeepsInv(ends, s, st, name, params);
    case CallNotWritten => GivingUpKeepsInv(ends, s, st, e);
    case ServerStep => ServerKeepsInv(ends, s, st);
    case ReaderScans => ReaderKeepsInv(ends, s, st, e);
    case ReaderPushes => ReaderKeepsInv(ends, s, st, e);
    case ReaderStops => ReaderKeepsInv(ends, s, st, e);
    case Receive => ReceiveKeepsInv(ends, s, st);
    case Cancel => GivingUpKeepsInv(ends, s, st, e);
    case SeeReadError => GivingUpKeepsInv(ends, s, st, e);
    case SeeClosed => GivingUpKeepsInv(ends, s, st, e);
  }

  function Run<S>(ends: Ends<S>, st: System<S>, events: seq<Event>): Option<System<S>>
    decreases |events|
  {
    if events == [] then Some(st)
    else if IsEnabled(st, events[0]) then Run(ends, Next(ends, st, events[0]), events[1..])
    else None
  }

  lemma {:induction false} RunKeepsInv<S(!new)>(ends: Ends<S>, s: S, st: System<S>, events: seq<Event>)
    requires Inv(ends, s, st)
    ensures var r := Run(ends, st, events); r.Some? ==> Inv(ends, s, r.value)
    decreases |events|
  {
    if events != [] && IsEnabled(st, events[0]) {
      StepKeepsInv(ends, s, st, events[0]);
      RunKeepsInv(ends, s, Next(ends, st, events[0]), events[1..]);
    }
  }

  // ----- calls can succeed

  /** Nothing is under way, and the transport is up. */
  predicate IsIdle<S>(st: System<S>)
  {
    && !st.waiting && st.served == |st.sent| && st.toClient == [] && st.inHand == None && st.channel == [] && !st.closed
  }

  /** From any idle state a call that the server answers can run to its success, and the system
      is idle again: so calls can follow one another without end. */
  lemma {:induction false} CallCanSucceed<S(!new)>(ends: Ends<S>, st: System<S>, name: string, params: string, reply: Reply)
    requires AreFit(ends) && IsIdle(st)
    requires ends.reply(st.server, Message(ends.idOf(st.nextId + 1), name, params)) == Some(reply)
    ensures var r := Run(ends, st, [Call(name, params), ServerStep, ReaderScans, ReaderPushes]);
      && r.Some? && IsEnabled(r.value, Receive) && Returned(ends, r.value, Receive) == Some(Replied(reply))
      && IsIdle(Next(ends, r.value, Receive))
  {
    var m := Message(ends.idOf(st.nextId + 1), name, params);
    var s1 := Next(ends, st, Call(name, params));
    assert s1.sent[s1.served] == m;
    var s2 := Next(ends, s1, ServerStep);
    assert s2.toClient == [reply];
    var s3 := Next(ends, s2, ReaderScans);
    var s4 := Next(ends, s3, ReaderPushes);
    assert s4.channel == [reply] && reply.id == m.id;
    RunOfFour(ends, st, Call(name, params), ServerStep, ReaderScans, ReaderPushes);
  }

  lemma {:induction false} RunOfFour<S>(ends: Ends<S>, st: System<S>, a: Event, b: Event, c: Event, d: Event)
    requires IsEnabled(st, a) && IsEnabled(Next(ends, st, a), b) && IsEnabled(Next(ends, Next(ends, st, a), b), c)
    requires IsEnabled(Next(ends, Next(ends, Next(ends, st, a), b), c), d)
    ensures Run(ends, st, [a, b, c, d]) == Some(Next(ends, Next(ends, Next(ends, Next(ends, st, a), b), c), d))
  {
    hide IsEnabled, Next;
    assert [a, b, c, d][1..] == [b, c, d] && [b, c, d][1..] == [c, d] && [c, d][1..] == [d] && [d][1..] == [];
    assert Run(ends, Next(ends, Next(ends, Next(ends, st, a), b), c), [d]) == Some(Next(ends, Next(ends, Next(ends, Next(ends, st, a), b), c), d));
    assert Run(ends, Next(ends, Next(ends, st, a), b), [c, d]) == Run(ends, Next(ends, Next(ends, Next(ends, st, a), b), c), [d]);
  }

  /** The last of these events returns to the caller. */
  ghost predicate EndsCall<S>(ends: Ends<S>, st: System<S>, events: seq<Event>)
  {
    && events != []
    && var r := Run(ends, st, events[..|events| - 1]);
    && r.Some? && IsEnabled(r.value, events[|events| - 1]) && Returned(ends, r.value, events[|events| - 1]).Some?
  }

  lemma {:induction false} DrainedCallEnds<S>(ends: Ends<S>, st: System<S>) returns (events: seq<Event>)
    requires st.closed && st.waiting
    ensures EndsCall(ends, st, events) && |events| <= |st.channel| + 1
    ensures forall e :: e in events ==> e == Receive || e == SeeClosed
    decreases |st.channel|
  {
    if st.channel == [] {
      events := [SeeClosed];
    } else if st.channel[0].id == ends.idOf(st.nextId) {
      events := [Receive];
    } else {
      var more := DrainedCallEnds(ends, Next(ends, st, Receive));
      events := [Receive] + more;
      EndsCallBefore(ends, st, Receive, more);
    }
  }

  lemma {:induction false} EndsCallBefore<S>(ends: Ends<S>, st: System<S>, e: Event, more: seq<Event>)
    requires IsEnabled(st, e) && EndsCall(ends, Next(ends, st, e), more)
    ensures EndsCall(ends, st, [e] + more)
  {
    hide IsEnabled, Next, Returned;
    var front := ([e] + more)[..|more|];
    assert front[0] == e && front[1..] == more[..|more| - 1];
  }

  /** No call waits for a reader that has stopped: by its own steps alone, and without being
      cancelled, it returns after at most the replies that were still in the channel. */
  lemma {:induction false} StoppedReaderEndsCall<S>(ends: Ends<S>, st: System<S>) returns (events: seq<Event>)
    requires IsEnabled(st, ReaderStops) && st.waiting
    ensures EndsCall(ends, Next(ends, st, ReaderStops), events) && |events| <= |st.channel| + 1
    ensures forall e :: e in events ==> e == Receive || e == SeeClosed
  {
    events := DrainedCallEnds(ends, Next(ends, st, ReaderStops));
  }

  // ----- safety of calls

  /** In every interleaving, a call that succeeds returns the server's reply to its own
      request: the reply to the last message sent, computed after exactly those before it. */
  lemma {:induction false} SuccessIsOwnReply<S(!new)>(ends: Ends<S>, s: S, events: seq<Event>, e: Event)
    requires AreFit(ends) && Run(ends, Initial(s), events).Some?
    requires var st := Run(ends, Initial(s), events).value;
      IsEnabled(st, e) && Returned(ends, st, e).Some? && Returned(ends, st, e).value.Replied?
    ensures var st := Run(ends, Initial(s), events).value;
      && st.sent != [] && st.sent[|st.sent| - 1].id == ends.idOf(st.nextId)
      && ReplyAt(ends, s, st.sent, |st.sent| - 1) == Some(Returned(ends, st, e).value.reply)
  {
    RunKeepsInv(ends, s, Initial(s), events);
    var st := Run(ends, Initial(s), events).value;
    var n := NextReplyIsOwnOrLate(ends, s, st);
    assert IsNumbered(ends.idOf, st.sent[|st.sent| - 1], st.nextId);
  }

  /** The same in terms of the server's loop: what the call returns is the last reply that the
      loop writes for everything the client has sent. */
  lemma {:induction false} SuccessIsTheServersLastReply<S(!new)>(tools: Tools<S>, s: S, events: seq<Event>, e: Event)
    requires Run(TheEnds(tools), Initial(s), events).Some?
    requires var st := Run(TheEnds(tools), Initial(s), events).value;
      IsEnabled(st, e) && Returned(TheEnds(tools), st, e).Some? && Returned(TheEnds(tools), st, e).value.Replied?
    ensures var st := Run(TheEnds(tools), Initial(s), events).value;
      var replies := RepliesTo(tools, s, AsLines(st.sent));
      replies != [] && replies[|replies| - 1] == Returned(TheEnds(tools), st, e).value.reply
  {
    TheEndsAreFit(tools);
    SuccessIsOwnReply(TheEnds(tools), s, events, e);
    RepliesAreTheServers(tools, s, Run(TheEnds(tools), Initial(s), events).value.sent);
  }

  /** The next reply in the channel of a waiting call is its own, or a late one with a smaller
      number that belongs to an earlier call. */
  lemma {:induction false} NextReplyIsOwnOrLate<S(!new)>(ends: Ends<S>, s: S, st: System<S>) returns (n: nat)
    requires Inv(ends, s, st) && st.waiting && st.channel != []
    ensures 0 < n <= st.nextId && st.channel[0].id == ends.idOf(n)
    ensures st.channel[0].id == ends.idOf(st.nextId) <==> n == st.nextId
    ensures n == st.nextId ==> ReplyAt(ends, s, st.sent, |st.sent| - 1) == Some(st.channel[0])
  {
    var k;
    n, k := NextReplyNumber(ends, s, st);
    NumberIsOwn(ends.idOf, st.numbers, st.nextId, k, st.channel[0].id);
    assert |st.numbers| == |st.sent|;
  }

  lemma {:induction false} NumberIsOwn(idOf: nat -> string, numbers: seq<nat>, nextId: nat, k: nat, id: string)
    requires AreDistinct(idOf)
    requires Ascend(numbers, nextId) && k < |numbers| && numbers[k] > 0 && id == idOf(numbers[k])
    requires numbers[|numbers| - 1] == nextId > 0
    ensures id == idOf(nextId) <==> numbers[k] == nextId
    ensures numbers[k] == nextId ==> k == |numbers| - 1
  {
    if numbers[k] == nextId { LargestIsLast(numbers, nextId, k); }
  }

  lemma {:induction false} LargestIsLast(numbers: seq<nat>, nextId: nat, k: nat)
    requires Ascend(numbers, nextId) && k < |numbers| && numbers[k] == nextId > 0 && numbers[|numbers| - 1] > 0
    ensures k == |numbers| - 1
  {
    AscendAt(numbers, nextId, k, |numbers| - 1);
    AscendAt(numbers, nextId, |numbers| - 1, |numbers| - 1);
  }

  lemma {:induction false} NextReplyNumber<S(!new)>(ends: Ends<S>, s: S, st: System<S>) returns (n: nat, k: nat)
    requires Inv(ends, s, st) && st.channel != []
    ensures k < |st.sent| && n == st.numbers[k] && 0 < n <= st.nextId
    ensures st.channel[0].id == ends.idOf(n) && ReplyAt(ends, s, st.sent, k) == Some(st.channel[0])
  {
    var origin := Origins(ends, s, st.sent, st.served);
    HeadOfPipe(st);
    n := NumberInFlight(ends, s, st, 0, origin);
    k := origin[|st.consumed|];
  }

  lemma {:induction false} HeadOfPipe<S>(st: System<S>)
    requires st.channel != []
    ensures Pipe(st) != [] && Pipe(st)[0] == st.channel[0]
  {
  }

  /** A waiting call never skips its own reply: once the server has answered, the reply is the
      last one on its way to the client, and only replies before it can be discarded. */
  lemma {:induction false} OwnReplyIsOnItsWay<S(!new)>(ends: Ends<S>, s: S, events: seq<Event>)
    requires AreFit(ends) && Run(ends, Initial(s), events).Some?
    requires var st := Run(ends, Initial(s), events).value;
      st.waiting && st.sent != [] && st.served == |st.sent| && ReplyAt(ends, s, st.sent, |st.sent| - 1).Some?
    ensures var st := Run(ends, Initial(s), events).value;
      && Pipe(st) != []
      && ReplyAt(ends, s, st.sent, |st.sent| - 1) == Some(Pipe(st)[|Pipe(st)| - 1])
  {
    RunKeepsInv(ends, s, Initial(s), events);
    OwnReplyIsLast(ends, s, Run(ends, Initial(s), events).value);
  }

  lemma {:induction false} OwnReplyIsLast<S(!new)>(ends: Ends<S>, s: S, st: System<S>)
    requires Inv(ends, s, st)
    requires st.waiting && st.served == |st.sent| && ReplyAt(ends, s, st.sent, |st.sent| - 1).Some?
    ensures Pipe(st) != []
    ensures ReplyAt(ends, s, st.sent, |st.sent| - 1) == Some(Pipe(st)[|Pipe(st)| - 1])
  {
    var last := |st.sent| - 1;
    ServeOneMore(ends, s, st.sent, last);
    assert st.sent[..last + 1] == st.sent[..st.served];
    assert IsNumbered(ends.idOf, st.sent[last], st.numbers[last]);
    var reply := ReplyAt(ends, s, st.sent, last).value;
    assert reply.id == ends.idOf(st.nextId);
    LastOfPipe(st.consumed, Pipe(st), Replies(ends, s, st.sent[..last]), reply);
  }

  lemma {:induction false} LastOfPipe(consumed: seq<Reply>, pipe: seq<Reply>, before: seq<Reply>, r: Reply)
    requires consumed + pipe == before + [r] && NoneHasId(consumed, r.id)
    ensures pipe != [] && pipe[|pipe| - 1] == r
  {
    var all := consumed + pipe;
    assert all[|all| - 1] == r;
    assert pipe != [] by {
      assert forall i :: 0 <= i < |consumed| ==> all[i] == consumed[i] != r;
    }
  }

  /** Ids in flight are distinct and increase along the way to the client. */
  lemma {:induction false} IdsInFlightIncrease<S(!new)>(ends: Ends<S>, s: S, st: System<S>, i: nat, j: nat)
    returns (m: nat, n: nat)
    requires Inv(ends, s, st) && i < j < |Pipe(st)|
    ensures 0 < m < n <= st.nextId && Pipe(st)[i].id == ends.idOf(m) && Pipe(st)[j].id == ends.idOf(n)
  {
    var origin := Origins(ends, s, st.sent, st.served);
    m := NumberInFlight(ends, s, st, i, origin);
    n := NumberInFlight(ends, s, st, j, origin);
    AscendAt(st.numbers, st.nextId, origin[|st.consumed| + i], origin[|st.consumed| + j]);
  }

  lemma {:induction false} NumberInFlight<S(!new)>(ends: Ends<S>, s: S, st: System<S>, i: nat, origin: seq<nat>) returns (n: nat)
    requires Inv(ends, s, st) && i < |Pipe(st)|
    requires var replies := Replies(ends, s, st.sent[..st.served]);
      |origin| == |replies| && forall k :: 0 <= k < |origin| ==>
        origin[k] < st.served && ReplyAt(ends, s, st.sent, origin[k]) == Some(replies[k])
    ensures n == st.numbers[origin[|st.consumed| + i]] && 0 < n <= st.nextId
    ensures Pipe(st)[i].id == ends.idOf(n) && ReplyAt(ends, s, st.sent, origin[|st.consumed| + i]) == Some(Pipe(st)[i])
  {
    PipeIndex(st.consumed, Pipe(st), i);
    NumberOfReply(ends, s, st, |st.consumed| + i, origin);
    n := st.numbers[origin[|st.consumed| + i]];
  }

  lemma {:induction false} PipeIndex(consumed: seq<Reply>, pipe: seq<Reply>, i: nat)
    requires i < |pipe|
    ensures (consumed + pipe)[|consumed| + i] == pipe[i]
  {
  }
}
