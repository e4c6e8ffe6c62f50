/** The read-ahead reader (server/reader.go) and the channel loop that consumes it (server/serve.go), as
    interleaved steps over two buffers and two channels. */
module ReadAhead {
  import opened Basics
  import opened Framing

  type BufId = b: nat | b < 2

  /** A message on its way to the consumer: the payload is the first n bytes of the buffer it points into. */
  datatype Msg = Msg(header: Header, n: nat, buf: BufId, err: Err)

  /** Where the reading goroutine is. Closing stands between the last send and the close of msgs. */
  datatype ReaderPc = Taking | Reading(buf: BufId) | Sending(msg: Msg) | Closing | Exited

  datatype ConsumerPc = Waiting | Handling(msg: Msg) | Stopped

  datatype World = World(
    input: seq<byte>,             // not read from the stream yet
    mem: seq<seq<byte>>,          // the two payload buffers
    free: seq<BufId>,             // channel of capacity two
    msgs: seq<Msg>,               // channel of capacity one
    done: bool,                   // closed by stop
    reader: ReaderPc,
    consumer: ConsumerPc,
    nread: nat,                   // messages taken off the stream
    taken: nat)                   // messages handed to the consumer

  predicate Closed(w: World) { w.reader.Exited? }

  /** The InputQueued predicate of the interrupted check. */
  predicate Pending(w: World) { |w.msgs| > 0 }

  ghost predicate Init(w: World, stream: seq<byte>, limit: nat) {
    && |w.mem| == 2 && |w.mem[0]| == limit && |w.mem[1]| == limit
    && w == World(stream, w.mem, [0, 1], [], false, Taking, Waiting, 0, 0)
  }

  datatype Action =
    | TakeBuffer | Fill | FinishRead | Send | Close | ReaderStops
    | Next | NextClosed | Release(fails: bool) | Quit

  ghost predicate SameSize(a: seq<byte>, b: seq<byte>) { |a| == |b| }

  /** One step of either goroutine. */
  ghost predicate Step(w: World, w': World, a: Action, limit: nat)
    requires limit > 0
  {
    && |w.mem| == 2
    && match a
       // the reading goroutine
       case TakeBuffer =>
         w.reader.Taking? && w.free != [] && w' == w.(reader := Reading(w.free[0]), free := w.free[1..])
       case Fill =>  // part of a payload, or of one being discarded, lands in the buffer
         && w.reader.Reading? && w' == w.(mem := w'.mem)
         && |w'.mem| == 2 && w'.mem[1 - w.reader.buf] == w.mem[1 - w.reader.buf]
         && SameSize(w'.mem[w.reader.buf], w.mem[w.reader.buf])
       case FinishRead =>
         && w.reader.Reading?
         && var b := w.reader.buf;
            var (r, rest) := ReadOne(w.input, limit);
            && |w'.mem| == 2 && w'.mem[1 - b] == w.mem[1 - b] && SameSize(w'.mem[b], w.mem[b])
            && |r.payload| <= |w'.mem[b]| && w'.mem[b][..|r.payload|] == r.payload
            && w' == w.(mem := w'.mem, input := rest, nread := w.nread + 1,
                        reader := Sending(Msg(r.header, |r.payload|, b, r.err)))
       case Send =>
         && w.reader.Sending? && |w.msgs| < 1
         && w' == w.(msgs := w.msgs + [w.reader.msg],
                     reader := if Recoverable(w.reader.msg.err) then Taking else Closing)
       case Close => w.reader.Closing? && w' == w.(reader := Exited)
       case ReaderStops => (w.reader.Taking? || w.reader.Sending?) && w.done && w' == w.(reader := Exited)
       // the channel loop
       case Next =>
         && w.consumer.Waiting? && w.msgs != []
         && w' == w.(consumer := Handling(w.msgs[0]), msgs := w.msgs[1..], taken := w.taken + 1)
       case NextClosed =>
         w.consumer.Waiting? && w.msgs == [] && Closed(w) && w' == w.(consumer := Stopped, done := true)
       case Release(fails) =>
         && w.consumer.Handling?
         && w' == w.(free := if |w.free| < 2 then w.free + [w.consumer.msg.buf] else w.free,
                     consumer := if fails then Stopped else Waiting,
                     done := w.done || fails)
       case Quit => w.consumer.Waiting? && w' == w.(consumer := Stopped, done := true)
  }

  // ---------------------------------------------------------------- the invariant

  /** Every place that holds a buffer, in a fixed order of places. */
  function Places(w: World): seq<BufId> {
    w.free + (ReaderHand(w) + (Queue(w) + ConsumerHand(w)))
  }

  function ReaderHand(w: World): seq<BufId> {
    match w.reader case Reading(b) => [b] case Sending(m) => [m.buf] case _ => []
  }

  function Queue(w: World): seq<BufId> { if w.msgs == [] then [] else [w.msgs[0].buf] }

  function ConsumerHand(w: World): seq<BufId> { if w.consumer.Handling? then [w.consumer.msg.buf] else [] }

  ghost predicate Distinct(p: seq<BufId>) { |p| <= 2 && (|p| == 2 ==> p[0] != p[1]) }

  /** Each buffer is in exactly one place, until the reader has exited with one in hand. */
  ghost predicate Ownership(w: World) {
    var p := Places(w);
    && Distinct(p)
    && (!w.reader.Exited? || !w.done ==> |p| == 2)
  }

  /** A message in flight still carries what was read from the stream for position i. */
  ghost predicate Carries(w: World, m: Msg, all: seq<Received>, i: int) {
    && 0 <= i < |all| && |w.mem| == 2
    && m.header == all[i].header && m.err == all[i].err
    && m.n == |all[i].payload| <= |w.mem[m.buf]|
    && w.mem[m.buf][..m.n] == all[i].payload
  }

  ghost predicate InOrder(w: World, all: seq<Received>) {
    && |w.msgs| <= 1
    && (w.consumer.Handling? ==> Carries(w, w.consumer.msg, all, w.taken - 1))
    && (w.msgs != [] ==> Carries(w, w.msgs[0], all, w.taken))
    && (w.reader.Sending? ==> Carries(w, w.reader.msg, all, w.taken + |w.msgs|))
  }

  ghost predicate Position(w: World, all: seq<Received>, limit: nat)
    requires limit > 0
  {
    && w.nread <= |all|
    && (!w.reader.Exited? || !w.done ==> w.nread == w.taken + |w.msgs| + if w.reader.Sending? then 1 else 0)
    && w.taken + |w.msgs| <= w.nread
    && (w.reader.Taking? || w.reader.Reading? ==> w.nread < |all| && ReadAll(w.input, limit) == all[w.nread..])
    && (w.reader.Sending? ==>
          if Recoverable(w.reader.msg.err) then w.nread < |all| && ReadAll(w.input, limit) == all[w.nread..]
          else w.nread == |all|)
    && (w.reader.Closing? || (w.reader.Exited? && !w.done) ==> w.nread == |all|)
  }

  ghost predicate Inv(w: World, all: seq<Received>, limit: nat)
    requires limit > 0
  {
    && |w.mem| == 2 && |w.mem[0]| == limit && |w.mem[1]| == limit
    && (w.done <==> w.consumer.Stopped?)
    && Ownership(w)
    && InOrder(w, all)
    && Position(w, all, limit)
  }

  lemma InitInv(w: World, stream: seq<byte>, limit: nat)
    requires limit > 0 && Init(w, stream, limit)
    ensures Inv(w, ReadAll(stream, limit), limit)
  {
    assert ReadAll(stream, limit)[0..] == ReadAll(stream, limit);
  }

  /** Moving one buffer behind the others loses none. */
  lemma MoveBack(a: seq<BufId>, x: BufId, b: seq<BufId>)
    ensures Distinct(a + ([x] + b)) <==> Distinct(a + (b + [x]))
    ensures |a + ([x] + b)| == |a + (b + [x])|
  {
    var p, q := a + ([x] + b), a + (b + [x]);
    if |p| == 2 {
      if |a| == 1 {
        assert b == [] && p == q;
      } else {
        assert p == [x, b[0]] && q == [b[0], x];
      }
    }
  }

  /** The reader takes the first free buffer. */
  lemma TakesFree(free: seq<BufId>, rest: seq<BufId>)
    requires free != []
    ensures Distinct(free + rest) <==> Distinct(free[1..] + ([free[0]] + rest))
    ensures |free + rest| == |free[1..] + ([free[0]] + rest)|
  {
    var p, q := free + rest, free[1..] + ([free[0]] + rest);
    if |p| == 2 {
      if |free| == 1 {
        assert p == q;
      } else {
        assert rest == [] && p == [free[0], free[1]] && q == [free[1], free[0]];
      }
    }
  }

  lemma Shorter(free: seq<BufId>, x: seq<BufId>, rest: seq<BufId>)
    requires |x| <= 1 && Distinct(free + (x + rest))
    ensures Distinct(free + ([] + rest))
  {
    assert |x| == 0 ==> x == [];
  }

  lemma ReaderOwnership(w: World, w': World, a: Action, limit: nat)
    requires limit > 0 && Ownership(w) && |w.msgs| <= 1 && Step(w, w', a, limit)
    requires !a.Next? && !a.NextClosed? && !a.Release? && !a.Quit?
    ensures Ownership(w')
  {
    hide ReadOne, Recoverable, SameSize, Distinct;
    var rest := Queue(w) + ConsumerHand(w);
    match a
    case TakeBuffer =>
      assert ReaderHand(w) == [] && [] + rest == rest;
      TakesFree(w.free, rest);
    case Send =>
      assert Queue(w) == [] && ReaderHand(w') == [] && Queue(w') == ReaderHand(w);
      assert [] + (ReaderHand(w) + ConsumerHand(w)) == ReaderHand(w) + ([] + ConsumerHand(w));
    case ReaderStops => Shorter(w.free, ReaderHand(w), rest);
    case _ =>
  }

  /** The buffer in the consumer's hand goes behind the free ones. */
  lemma HandsBack(free: seq<BufId>, hand: seq<BufId>, queue: seq<BufId>, b: BufId)
    requires Distinct(free + (hand + (queue + [b])))
    ensures |free| < 2 && Distinct((free + [b]) + (hand + (queue + [])))
    ensures |(free + [b]) + (hand + (queue + []))| == |free + (hand + (queue + [b]))|
  {
    MoveBack(free, b, hand + queue);
    assert hand + (queue + [b]) == (hand + queue) + [b] && queue + [] == queue;
    Associate(free, [b], hand + queue);
  }

  lemma ConsumerOwnership(w: World, w': World, a: Action, limit: nat)
    requires limit > 0 && Ownership(w) && |w.msgs| <= 1 && Step(w, w', a, limit)
    requires a.Next? || a.NextClosed? || a.Release? || a.Quit?
    ensures Ownership(w')
    ensures a.Release? ==> w'.free == w.free + [w.consumer.msg.buf]
  {
    hide ReadOne, Recoverable, SameSize, Distinct;
    match a
    case Next =>
      assert w'.msgs == [];
      assert Queue(w) + ConsumerHand(w) == Queue(w') + ConsumerHand(w');
    case Release(fails) =>
      HandsBack(w.free, ReaderHand(w), Queue(w), w.consumer.msg.buf);
    case _ =>
  }

  lemma StepOwnership(w: World, w': World, a: Action, all: seq<Received>, limit: nat)
    requires limit > 0 && Inv(w, all, limit) && Step(w, w', a, limit)
    ensures Ownership(w')
    ensures a.Release? ==> w.consumer.Handling? && w'.free == w.free + [w.consumer.msg.buf]
  {
    if a.Next? || a.NextClosed? || a.Release? || a.Quit? {
      ConsumerOwnership(w, w', a, limit);
    } else {
      ReaderOwnership(w, w', a, limit);
    }
    hide Ownership, Carries, Position, ReadOne, Recoverable, SameSize;
  }

  /** The message a finished read puts in the reader's hand is the next of the stream. */
  lemma FinishedRead(w: World, w': World, all: seq<Received>, limit: nat)
    requires limit > 0 && Inv(w, all, limit) && Step(w, w', FinishRead, limit)
    ensures w'.reader.Sending? && Carries(w', w'.reader.msg, all, w.nread) && w.nread == w.taken + |w.msgs|
    ensures w'.mem[1 - w.reader.buf] == w.mem[1 - w.reader.buf] && |w'.mem| == 2
    ensures w'.msgs == w.msgs && w'.consumer == w.consumer && w'.taken == w.taken
  {
    hide Places, InOrder;
    assert ReadAll(w.input, limit)[0] == all[w.nread];
  }

  lemma StepInOrder(w: World, w': World, a: Action, all: seq<Received>, limit: nat)
    requires limit > 0 && Inv(w, all, limit) && Step(w, w', a, limit)
    ensures InOrder(w', all)
  {
    hide SameSize, Position, ReadAll, ReadOne, Carries, Ownership;
    if a.FinishRead? {
      FinishedRead(w, w', all, limit);
      hide Step;
      HeldElsewhere(w);
      FilledElsewhere(w, w', all);
    } else if a.Fill? {
      HeldElsewhere(w);
      FilledElsewhere(w, w', all);
    } else {
      SameMemory(w, w', all);
    }
  }

  lemma SameMemory(w: World, w': World, all: seq<Received>)
    requires w'.mem == w.mem
    ensures forall m, i :: Carries(w, m, all, i) <==> Carries(w', m, all, i)
  {
  }

  /** A message in a buffer that was not written to still carries its payload. */
  lemma FilledElsewhere(w: World, w': World, all: seq<Received>)
    requires w.reader.Reading? && |w.mem| == |w'.mem| == 2 && w'.mem[1 - w.reader.buf] == w.mem[1 - w.reader.buf]
    ensures forall m: Msg, i | m.buf != w.reader.buf :: Carries(w, m, all, i) <==> Carries(w', m, all, i)
  {
  }

  /** While the reader fills a buffer, neither the queue nor the consumer holds it. */
  lemma HeldElsewhere(w: World)
    requires Ownership(w) && w.reader.Reading?
    ensures w.msgs != [] ==> w.msgs[0].buf != w.reader.buf
    ensures w.consumer.Handling? ==> w.consumer.msg.buf != w.reader.buf
  {
    var p := Places(w);
    assert p[|w.free|] == w.reader.buf;
    if w.msgs != [] {
      assert p[|w.free| + 1] == w.msgs[0].buf;
    }
    if w.consumer.Handling? {
      assert p[|p| - 1] == w.consumer.msg.buf;
    }
  }

  lemma StepPosition(w: World, w': World, a: Action, all: seq<Received>, limit: nat)
    requires limit > 0 && Inv(w, all, limit) && Step(w, w', a, limit)
    ensures Position(w', all, limit)
  {
    hide Ownership, Carries, SameSize, ReadAll, ReadOne, Recoverable;
    if a.FinishRead? {
      RestOfStream(w.input, all, w.nread, limit);
    }
  }

  /** What is left of the stream's messages once one is read. */
  lemma RestOfStream(input: seq<byte>, all: seq<Received>, i: nat, limit: nat)
    requires limit > 0 && i < |all| && ReadAll(input, limit) == all[i..]
    ensures var (r, rest) := ReadOne(input, limit);
            if Recoverable(r.err) then i + 1 < |all| && ReadAll(rest, limit) == all[i + 1..] else i + 1 == |all|
  {
    var (r, rest) := ReadOne(input, limit);
    assert all[i..][1..] == all[i + 1..];
    assert Recoverable(r.err) ==> ReadAll(input, limit)[1..] == ReadAll(rest, limit);
  }

  lemma StepInv(w: World, w': World, a: Action, all: seq<Received>, limit: nat)
    requires limit > 0 && Inv(w, all, limit) && Step(w, w', a, limit)
    ensures Inv(w', all, limit)
  {
    hide Ownership, InOrder, Position, ReadOne, Recoverable;
    StepOwnership(w, w', a, all, limit);
    StepInOrder(w, w', a, all, limit);
    StepPosition(w, w', a, all, limit);
  }

  // ---------------------------------------------------------------- every interleaving

  ghost predicate IsRun(run: seq<World>, actions: seq<Action>, stream: seq<byte>, limit: nat)
    requires limit > 0
  {
    && |run| == |actions| + 1
    && Init(run[0], stream, limit)
    && forall i | 0 <= i < |actions| :: Step(run[i], run[i + 1], actions[i], limit)
  }

  lemma {:induction false} RunInv(run: seq<World>, actions: seq<Action>, stream: seq<byte>, limit: nat, k: nat)
    requires limit > 0 && IsRun(run, actions, stream, limit) && k < |run|
    ensures Inv(run[k], ReadAll(stream, limit), limit)
  {
    if k == 0 {
      InitInv(run[0], stream, limit);
    } else {
      RunInv(run, actions, stream, limit, k - 1);
      StepInv(run[k - 1], run[k], actions[k - 1], ReadAll(stream, limit), limit);
    }
  }

  /** The message in the consumer's hand is the next one of the stream, and intact. */
  ghost predicate Intact(w: World, all: seq<Received>) {
    && w.consumer.Handling?
    && Carries(w, w.consumer.msg, all, w.taken - 1)
    && w.nread <= w.taken + 1
    && (w.reader.Reading? ==> w.nread == w.taken)
    && (Pending(w) ==> w.taken < |all| && Carries(w, w.msgs[0], all, w.taken))
    && w.consumer.msg.buf !in w.free
  }

  lemma HandledIsIntact(w: World, all: seq<Received>, limit: nat)
    requires limit > 0 && Inv(w, all, limit) && w.consumer.Handling?
    ensures Intact(w, all)
  {
    hide ReadAll;
    assert w.consumer.msg.buf !in w.free by {
      hide Carries, Position;
      var p := Places(w);
      assert p[|p| - 1] == w.consumer.msg.buf;
      assert forall i | 0 <= i < |w.free| :: p[i] == w.free[i];
    }
    hide Ownership;
  }

  /** In every interleaving, the message being handled is the next one of the stream, its payload is intact
      in its buffer, the reader holds at most the one message after it, and a pending message is that one. */
  lemma HandledMessageIsIntact(run: seq<World>, actions: seq<Action>, stream: seq<byte>, limit: nat, k: nat)
    requires limit > 0 && IsRun(run, actions, stream, limit) && k < |run| && run[k].consumer.Handling?
    ensures Intact(run[k], ReadAll(stream, limit))
  {
    hide ReadAll, Inv, Intact;
    RunInv(run, actions, stream, limit, k);
    HandledIsIntact(run[k], ReadAll(stream, limit), limit);
  }

  /** In every interleaving, until reader and consumer have both stopped: input is reported as queued exactly when a
      message has been read off the stream that the consumer has not been handed and the reader is not still
      holding, whatever that message is. */
  lemma PendingExactly(run: seq<World>, actions: seq<Action>, stream: seq<byte>, limit: nat, k: nat)
    requires limit > 0 && IsRun(run, actions, stream, limit) && k < |run|
    requires !run[k].reader.Exited? || !run[k].done
    ensures var w := run[k];
            Pending(w) <==> w.taken + (if w.reader.Sending? then 1 else 0) < w.nread
  {
    hide ReadAll, Step, Carries, Ownership;
    RunInv(run, actions, stream, limit, k);
  }

  /** What a step hands over, takes back, or ends with. */
  ghost predicate HandsOver(w: World, w': World, a: Action, all: seq<Received>) {
    && w'.taken == w.taken + (if a.Next? then 1 else 0)
    && (a.Next? ==> w'.consumer.Handling? && w.taken < |all| && Carries(w', w'.consumer.msg, all, w.taken))
    && (a.Release? ==> w.consumer.Handling? && w'.free == w.free + [w.consumer.msg.buf])
    && (a.NextClosed? ==> w.taken == |all|)
  }

  lemma StepHandsOver(w: World, w': World, a: Action, all: seq<Received>, limit: nat)
    requires limit > 0 && Inv(w, all, limit) && Step(w, w', a, limit)
    ensures HandsOver(w, w', a, all)
  {
    hide Ownership, ReadAll, ReadOne, Recoverable, SameSize;
    StepOwnership(w, w', a, all, limit);
  }

  /** The messages handed over are the stream's messages one by one, every buffer handed back is taken, and the
      channel ends only after the last. */
  lemma DeliveredInOrder(run: seq<World>, actions: seq<Action>, stream: seq<byte>, limit: nat, k: nat)
    requires limit > 0 && IsRun(run, actions, stream, limit) && k < |actions|
    ensures HandsOver(run[k], run[k + 1], actions[k], ReadAll(stream, limit))
  {
    hide ReadAll, Inv, Step, HandsOver;
    RunInv(run, actions, stream, limit, k);
    StepHandsOver(run[k], run[k + 1], actions[k], ReadAll(stream, limit), limit);
  }

  lemma ReadCanFinish(w: World, limit: nat)
    requires limit > 0 && |w.mem| == 2 && |w.mem[0]| == |w.mem[1]| == limit && w.reader.Reading?
    ensures exists w' :: Step(w, w', FinishRead, limit)
  {
    var b := w.reader.buf;
    var (r, rest) := ReadOne(w.input, limit);
    var filled := r.payload + w.mem[b][|r.payload|..];
    assert filled[..|r.payload|] == r.payload;
    hide ReadOne;
    var w' := w.(mem := w.mem[b := filled], input := rest, nread := w.nread + 1,
                 reader := Sending(Msg(r.header, |r.payload|, b, r.err)));
    assert Step(w, w', FinishRead, limit);
  }

  /** Neither goroutine can be stuck: unless the consumer has stopped, some step is possible. */
  lemma NoDeadlock(w: World, all: seq<Received>, limit: nat)
    requires limit > 0 && Inv(w, all, limit) && !w.consumer.Stopped?
    ensures exists a, w' :: a != Quit && a != Fill && Step(w, w', a, limit)
  {
    hide InOrder, Position, ReadAll, ReadOne, Recoverable;
    if w.consumer.Handling? {
      var w' := w.(free := if |w.free| < 2 then w.free + [w.consumer.msg.buf] else w.free, consumer := Waiting);
      assert Step(w, w', Release(false), limit);
    } else if w.msgs != [] {
      var w' := w.(consumer := Handling(w.msgs[0]), msgs := w.msgs[1..], taken := w.taken + 1);
      assert Step(w, w', Next, limit);
    } else {
      match w.reader
      case Taking =>
        assert Places(w) == w.free;
        assert Step(w, w.(reader := Reading(w.free[0]), free := w.free[1..]), TakeBuffer, limit);
      case Reading(b) =>
        ReadCanFinish(w, limit);
      case Sending(m) =>
        var w' := w.(msgs := w.msgs + [m], reader := if Recoverable(m.err) then Taking else Closing);
        assert Step(w, w', Send, limit);
      case Closing =>
        assert Step(w, w.(reader := Exited), Close, limit);
      case Exited =>
        assert Step(w, w.(consumer := Stopped, done := true), NextClosed, limit);
    }
  }

  /** What the consumer finds in its hand: the header, the bytes of the buffer, the error. */
  function InHand(w: World, m: Msg): Received {
    Received(m.header, if |w.mem| == 2 && m.n <= |w.mem[m.buf]| then w.mem[m.buf][..m.n] else [], m.err)
  }

  /** The messages handed to the consumer in the first k steps, as it found them. */
  ghost function HandedOver(run: seq<World>, actions: seq<Action>, k: nat): seq<Received>
    requires |run| == |actions| + 1 && k <= |actions|
  {
    if k == 0 then []
    else
      HandedOver(run, actions, k - 1)
      + if actions[k - 1].Next? && run[k].consumer.Handling? then [InHand(run[k], run[k].consumer.msg)] else []
  }

  lemma CarriedIsInHand(w: World, m: Msg, all: seq<Received>, i: int)
    requires Carries(w, m, all, i)
    ensures InHand(w, m) == all[i]
  {
  }

  /** In every interleaving the messages handed over so far, as found in the buffers, are exactly the first ones of
      the stream. */
  lemma {:induction false} HandedOverInOrder(
    run: seq<World>, actions: seq<Action>, stream: seq<byte>, limit: nat, k: nat)
    requires limit > 0 && IsRun(run, actions, stream, limit) && k <= |actions|
    ensures run[k].taken <= |ReadAll(stream, limit)|
    ensures HandedOver(run, actions, k) == ReadAll(stream, limit)[..run[k].taken]
  {
    hide ReadAll, Step, Carries, InHand;
    var all := ReadAll(stream, limit);
    if k > 0 {
      HandedOverInOrder(run, actions, stream, limit, k - 1);
      DeliveredInOrder(run, actions, stream, limit, k - 1);
      if actions[k - 1].Next? {
        CarriedIsInHand(run[k], run[k].consumer.msg, all, run[k - 1].taken);
        assert all[..run[k].taken] == all[..run[k - 1].taken] + [all[run[k - 1].taken]];
      }
    }
  }

  /** A loop that runs until the channel ends has been handed every message the peer wrote, in order and intact,
      over-limit ones as their headers and an error, and after them the end of the stream. */
  lemma NothingIsLost(run: seq<World>, actions: seq<Action>, sent: seq<Message>, limit: nat, k: nat)
    requires limit > 0 && IsRun(run, actions, WireAll(sent), limit) && k < |actions|
    requires actions[k].NextClosed?
    ensures HandedOver(run, actions, k) == Arrivals(sent, limit) + [Received(ZERO_HEADER, [], Some(UnexpectedEOF))]
  {
    DeliveredInOrder(run, actions, WireAll(sent), limit, k);
    HandedOverInOrder(run, actions, WireAll(sent), limit, k);
    FramingRoundTrip(sent, [], limit);
    assert WireAll(sent) + [] == WireAll(sent);
    assert ReadAll([], limit) == [Received(ZERO_HEADER, [], Some(UnexpectedEOF))];
    hide IsRun, Step, HandedOver, Arrivals;
    var all := ReadAll(WireAll(sent), limit);
    assert all[..|all|] == all;
  }
}
