/**
  A session of the test broker's consumer group (tester/consumergroup.go): catchupAndWait pushes what
  the queues hold to the claims while consumers mark messages and producers add new ones.
 */
module TesterSession {
  import opened TesterQueue

  /** Where catchupAndWait is: not running; between queues; in a queue; in pushMessageToClaim; waiting. */
  datatype Pc =
    | Idle
    | Loop(todo: set<string>)
    | GotMark(todo: set<string>, topic: string, mark: int)
    | Batch(todo: set<string>, topic: string, rest: seq<Message>)
    | Reserved(todo: set<string>, topic: string, rest: seq<Message>) // rest[0] is in waitingMessages
    | Added(todo: set<string>, topic: string, rest: seq<Message>)    // and counted
    | Waiting
    | Panicked

  datatype State = State(
    queues: map<string, seq<Message>>,
    marks: map<string, int>,
    waiting: set<string>,
    wg: int,
    log: seq<(string, Message)>,      // what was sent to the claims
    pushed: nat,                      // msgPushed of the running or last call
    goal: map<string, nat>,           // how long the queues were when that call began
    start: nat,                       // and how long the log was
    pc: Pc)

  datatype Event =
    | Produce(topic: string, key: string, value: string)
    | Mark(topic: string, offset: nat)
    | Begin
    | ReadMark(topic: string)
    | ReadBatch
    | NextQueue
    | Reserve
    | AddOne
    | Send
    | StartWait
    | Return

  /** What a claim was sent. */
  function Delivered(log: seq<(string, Message)>, t: string): seq<Message> {
    if log == [] then []
    else Delivered(log[..|log| - 1], t) + if log[|log| - 1].0 == t then [log[|log| - 1].1] else []
  }

  function Lengths(queues: map<string, seq<Message>>): map<string, nat> {
    map t | t in queues :: |queues[t]|
  }

  /** A new session: nothing sent, nothing marked, whatever is in the queues already. */
  ghost predicate Init(s: State) {
    && (forall t | t in s.queues :: Numbered(s.queues[t]))
    && s.marks.Keys == s.queues.Keys && (forall t | t in s.marks :: s.marks[t] == 0)
    && s.waiting == {} && s.wg == 0 && s.log == [] && s.pc == Idle && s.goal == map[] && s.start == 0
  }

  /** Consumers mark messages they were sent, in any order, and perhaps again. */
  predicate Enabled(s: State, e: Event) {
    match e
    case Produce(t, _, _) => t in s.queues
    case Mark(t, o) => t in s.marks && o < |Delivered(s.log, t)|
    case Begin => s.pc.Idle?
    case ReadMark(t) => s.pc.Loop? && t in s.pc.todo && t in s.marks
    case ReadBatch => s.pc.GotMark? && s.pc.topic in s.queues && 0 <= s.pc.mark <= |s.queues[s.pc.topic]|
    case NextQueue => s.pc.Batch? && s.pc.rest == []
    case Reserve => s.pc.Batch? && s.pc.rest != [] && s.pc.rest[0].offset >= 0
    case AddOne => s.pc.Reserved?
    case Send => s.pc.Added? && s.pc.rest != []
    case StartWait => s.pc.Loop? && s.pc.todo == {}
    case Return => s.pc.Waiting? && s.wg == 0
  }

  function Produced(queues: map<string, seq<Message>>, t: string, k: string, v: string): map<string, seq<Message>>
    requires t in queues
  {
    queues[t := queues[t] + [Message(|queues[t]|, k, v)]]
  }

  function Marked(s: State, t: string, o: nat): State
    requires t in s.marks
  {
    var k := MsgKey(t, o);
    var s' := if k in s.waiting then s.(wg := s.wg - 1, waiting := s.waiting - {k}) else s;
    if s.marks[t] < o + 1 then s'.(marks := s.marks[t := o + 1]) else s'
  }

  function Apply(s: State, e: Event): State
    requires Enabled(s, e)
  {
    match e
    case Produce(t, k, v) => s.(queues := Produced(s.queues, t, k, v))
    case Mark(t, o) => Marked(s, t, o)
    case Begin => s.(pc := Loop(s.queues.Keys), pushed := 0, goal := Lengths(s.queues), start := |s.log|)
    case ReadMark(t) => s.(pc := GotMark(s.pc.todo - {t}, t, s.marks[t]))
    case ReadBatch => s.(pc := Batch(s.pc.todo, s.pc.topic, s.queues[s.pc.topic][s.pc.mark..]))
    case NextQueue => s.(pc := Loop(s.pc.todo))
    case Reserve =>
      var k := MsgKey(s.pc.topic, s.pc.rest[0].offset);
      if k in s.waiting then s.(pc := Panicked)
      else s.(waiting := s.waiting + {k}, pc := Reserved(s.pc.todo, s.pc.topic, s.pc.rest))
    case AddOne => s.(wg := s.wg + 1, pc := Added(s.pc.todo, s.pc.topic, s.pc.rest))
    case Send =>
      s.(log := s.log + [(s.pc.topic, s.pc.rest[0])], pushed := s.pushed + 1,
         pc := Batch(s.pc.todo, s.pc.topic, s.pc.rest[1..]))
    case StartWait => s.(pc := Waiting)
    case Return => s.(pc := Idle)
  }

  ghost predicate IsRun(run: seq<State>, events: seq<Event>) {
    && |run| == |events| + 1 && Init(run[0])
    && forall n {:trigger events[n]} | 0 <= n < |events| ::
         Enabled(run[n], events[n]) && run[n + 1] == Apply(run[n], events[n])
  }

  // ---------- the invariant ----------

  /** Queues are numbered, and each claim was sent a queue's messages from the front, each once, in order. */
  ghost predicate SentOk(queues: map<string, seq<Message>>, log: seq<(string, Message)>) {
    && (forall t | t in queues :: Numbered(queues[t]) && Delivered(log, t) <= queues[t])
    && (forall i | 0 <= i < |log| :: log[i].0 in queues)
  }

  /** The message being pushed, if it is among the waiting ones but not sent yet. */
  function Extra(pc: Pc, t: string): nat {
    if (pc.Reserved? || pc.Added?) && pc.topic == t then 1 else 0
  }

  ghost predicate WaitingOk(topics: set<string>, log: seq<(string, Message)>, waiting: set<string>, pc: Pc) {
    forall t, o: nat | MsgKey(t, o) in waiting :: t in topics && o < |Delivered(log, t)| + Extra(pc, t)
  }

  /** Marks do not pass what was sent; and what was sent waits or has been passed by the mark. */
  ghost predicate MarksOk(topics: set<string>, marks: map<string, int>, log: seq<(string, Message)>,
                          waiting: set<string>) {
    && marks.Keys == topics
    && forall t | t in marks :: MarkOk(marks[t], Delivered(log, t), waiting, t)
  }

  ghost predicate MarkOk(mark: int, sent: seq<Message>, waiting: set<string>, t: string) {
    0 <= mark <= |sent| && forall o: nat | o < |sent| :: MsgKey(t, o) in waiting || o < mark
  }

  ghost predicate CountOk(waiting: set<string>, wg: int, pc: Pc) {
    wg == |waiting| - if pc.Reserved? then 1 else 0
  }

  /** The mark of the queue is at the end of what was sent of it. */
  ghost predicate Settled(marks: map<string, int>, log: seq<(string, Message)>, t: string) {
    t in marks && marks[t] == |Delivered(log, t)|
  }

  /** What the running call must push of queue `t` has been pushed. */
  ghost predicate Reached(goal: map<string, nat>, log: seq<(string, Message)>, t: string) {
    t in goal && |Delivered(log, t)| >= goal[t]
  }

  ghost predicate AllSettled(topics: set<string>, marks: map<string, int>, log: seq<(string, Message)>) {
    forall t | t in topics :: Settled(marks, log, t)
  }

  ghost predicate AllReached(topics: set<string>, goal: map<string, nat>, log: seq<(string, Message)>) {
    forall t | t in topics :: Reached(goal, log, t)
  }

  ghost predicate BatchOk(queue: seq<Message>, goal: map<string, nat>, log: seq<(string, Message)>, t: string,
                          rest: seq<Message>) {
    var d := |Delivered(log, t)|;
    d + |rest| <= |queue| && rest == queue[d..d + |rest|] && t in goal && d + |rest| >= goal[t]
  }

  /** The queue the loop is in. */
  ghost predicate CurrentOk(queues: map<string, seq<Message>>, goal: map<string, nat>, log: seq<(string, Message)>,
                            waiting: set<string>, pc: Pc) {
    match pc
    case GotMark(todo, t, mark) => t in queues && t !in todo && mark == |Delivered(log, t)|
    case Batch(todo, t, rest) => t in queues && t !in todo && BatchOk(queues[t], goal, log, t, rest)
    case Reserved(todo, t, rest) =>
      && t in queues && t !in todo && BatchOk(queues[t], goal, log, t, rest)
      && rest != [] && MsgKey(t, |Delivered(log, t)|) in waiting
    case Added(todo, t, rest) =>
      && t in queues && t !in todo && BatchOk(queues[t], goal, log, t, rest)
      && rest != [] && MsgKey(t, |Delivered(log, t)|) in waiting
    case Panicked => false
    case _ => true
  }

  /** The queues still to do. */
  function Todo(topics: set<string>, pc: Pc): set<string> {
    match pc
    case Idle => topics
    case Waiting => {}
    case Panicked => {}
    case _ => pc.todo
  }

  /** The queues the running call is done with. */
  function Done(topics: set<string>, pc: Pc): set<string> {
    match pc
    case Idle => {}
    case Panicked => {}
    case Loop(todo) => topics - todo
    case Waiting => topics
    case _ => topics - pc.todo - {pc.topic}
  }

  ghost predicate LoopOk(topics: set<string>, marks: map<string, int>, goal: map<string, nat>,
                         log: seq<(string, Message)>, pc: Pc) {
    && Todo(topics, pc) <= topics
    && AllSettled(Todo(topics, pc), marks, log) && AllReached(Done(topics, pc), goal, log)
  }

  ghost predicate CallOk(lengths: map<string, nat>, goal: map<string, nat>, pc: Pc) {
    pc.Idle? || (goal.Keys == lengths.Keys && forall t | t in goal :: goal[t] <= lengths[t])
  }

  ghost predicate PushedOk(s: State) {
    s.pc.Idle? || s.pushed + s.start == |s.log|
  }

  ghost predicate Inv(s: State) {
    && SentOk(s.queues, s.log) && WaitingOk(s.queues.Keys, s.log, s.waiting, s.pc)
    && MarksOk(s.queues.Keys, s.marks, s.log, s.waiting) && CountOk(s.waiting, s.wg, s.pc)
    && CurrentOk(s.queues, s.goal, s.log, s.waiting, s.pc) && LoopOk(s.queues.Keys, s.marks, s.goal, s.log, s.pc)
    && CallOk(Lengths(s.queues), s.goal, s.pc) && PushedOk(s)
  }

  // ---------- every step keeps it ----------

  lemma InitInv(s: State)
    requires Init(s)
    ensures Inv(s)
  {
  }

  lemma ProduceKeepsSent(queues: map<string, seq<Message>>, log: seq<(string, Message)>, t: string, k: string,
                         v: string)
    requires SentOk(queues, log) && t in queues
    ensures SentOk(Produced(queues, t, k, v), log)
  {
  }

  lemma ProduceKeepsCall(queues: map<string, seq<Message>>, goal: map<string, nat>, pc: Pc, t: string, k: string,
                         v: string)
    requires CallOk(Lengths(queues), goal, pc) && t in queues
    ensures CallOk(Lengths(Produced(queues, t, k, v)), goal, pc)
  {
  }

  lemma ProduceKeepsCurrent(s: State, t: string, k: string, v: string)
    requires CurrentOk(s.queues, s.goal, s.log, s.waiting, s.pc) && t in s.queues
    ensures CurrentOk(Produced(s.queues, t, k, v), s.goal, s.log, s.waiting, s.pc)
  {
    var queues := Produced(s.queues, t, k, v);
    if s.pc.Batch? || s.pc.Reserved? || s.pc.Added? {
      LongerBatch(s.queues[s.pc.topic], queues[s.pc.topic], s.goal, s.log, s.pc.topic, s.pc.rest);
    }
  }

  lemma OnProduce(s: State, t: string, k: string, v: string)
    requires Inv(s) && t in s.queues
    ensures Inv(Apply(s, Produce(t, k, v)))
  {
    ProduceKeepsSent(s.queues, s.log, t, k, v);
    ProduceKeepsCall(s.queues, s.goal, s.pc, t, k, v);
    ProduceKeepsCurrent(s, t, k, v);
    assert Produced(s.queues, t, k, v).Keys == s.queues.Keys;
  }

  lemma LongerBatch(q: seq<Message>, q': seq<Message>, goal: map<string, nat>, log: seq<(string, Message)>, t: string,
                    rest: seq<Message>)
    requires BatchOk(q, goal, log, t, rest) && q <= q'
    ensures BatchOk(q', goal, log, t, rest)
  {
  }

  lemma MarkSettles(s: State, t: string, o: nat)
    requires MarksOk(s.queues.Keys, s.marks, s.log, s.waiting) && Enabled(s, Mark(t, o))
    ensures var s' := Marked(s, t, o);
            && s'.marks.Keys == s.marks.Keys
            && (forall u | Settled(s.marks, s.log, u) :: Settled(s'.marks, s'.log, u))
            && MarksOk(s.queues.Keys, s'.marks, s'.log, s'.waiting)
  {
    var s' := Marked(s, t, o);
    forall u | u in s.marks ensures MarkOk(s'.marks[u], Delivered(s.log, u), s'.waiting, u) {
      assert MarkOk(s.marks[u], Delivered(s.log, u), s.waiting, u);
      forall p: nat | p < |Delivered(s.log, u)| ensures MsgKey(u, p) in s'.waiting || p < s'.marks[u] {
        if MsgKey(u, p) == MsgKey(t, o) {
          MsgKeyIsInjective(u, p, t, o);
        }
      }
    }
  }

  lemma MarkKeepsCurrent(s: State, t: string, o: nat)
    requires CurrentOk(s.queues, s.goal, s.log, s.waiting, s.pc) && Enabled(s, Mark(t, o))
    ensures CurrentOk(s.queues, s.goal, s.log, Marked(s, t, o).waiting, s.pc)
  {
    if s.pc.Reserved? || s.pc.Added? {
      var u := s.pc.topic;
      if MsgKey(u, |Delivered(s.log, u)|) == MsgKey(t, o) {
        MsgKeyIsInjective(u, |Delivered(s.log, u)|, t, o);
      }
    }
  }

  lemma OnMark(s: State, t: string, o: nat)
    requires Inv(s) && Enabled(s, Mark(t, o))
    ensures Inv(Apply(s, Mark(t, o)))
  {
    MarkSettles(s, t, o);
    MarkKeepsCurrent(s, t, o);
  }

  lemma OnQueueStep(s: State, e: Event)
    requires Inv(s) && Enabled(s, e) && (e.Begin? || e.ReadMark? || e.ReadBatch? || e.NextQueue? || e.StartWait?)
    ensures Inv(Apply(s, e))
  {
  }

  /** The next message of a batch is not waiting yet, so pushing it does not panic. */
  lemma ReserveIsNew(s: State)
    requires Inv(s) && Enabled(s, Reserve)
    ensures s.pc.rest[0].offset == |Delivered(s.log, s.pc.topic)|
    ensures MsgKey(s.pc.topic, s.pc.rest[0].offset) !in s.waiting
  {
    assert s.pc.rest[0] == s.queues[s.pc.topic][|Delivered(s.log, s.pc.topic)|];
  }

  lemma ReserveKeepsWaiting(topics: set<string>, log: seq<(string, Message)>, waiting: set<string>, pc: Pc)
    requires pc.Batch? && pc.topic in topics && WaitingOk(topics, log, waiting, pc)
    ensures WaitingOk(topics, log, waiting + {MsgKey(pc.topic, |Delivered(log, pc.topic)|)},
                      Reserved(pc.todo, pc.topic, pc.rest))
  {
    var d := |Delivered(log, pc.topic)|;
    forall t, o: nat | MsgKey(t, o) == MsgKey(pc.topic, d) ensures t == pc.topic && o == d {
      MsgKeyIsInjective(t, o, pc.topic, d);
    }
  }

  lemma ReserveKeepsMarks(topics: set<string>, marks: map<string, int>, log: seq<(string, Message)>,
                          waiting: set<string>, k: string)
    requires MarksOk(topics, marks, log, waiting)
    ensures MarksOk(topics, marks, log, waiting + {k})
  {
    forall t | t in marks ensures MarkOk(marks[t], Delivered(log, t), waiting + {k}, t) {
      assert MarkOk(marks[t], Delivered(log, t), waiting, t);
    }
  }

  lemma OnReserve(s: State)
    requires Inv(s) && Enabled(s, Reserve)
    ensures Inv(Apply(s, Reserve))
  {
    ReserveIsNew(s);
    ReserveKeepsWaiting(s.queues.Keys, s.log, s.waiting, s.pc);
    ReserveKeepsMarks(s.queues.Keys, s.marks, s.log, s.waiting, MsgKey(s.pc.topic, s.pc.rest[0].offset));
  }

  lemma OnAddOne(s: State)
    requires Inv(s) && Enabled(s, AddOne)
    ensures Inv(Apply(s, AddOne))
  {
  }

  // ---------- sending ----------

  lemma DeliveredMore(log: seq<(string, Message)>, t: string, m: Message, u: string)
    ensures Delivered(log + [(t, m)], u) == Delivered(log, u) + if t == u then [m] else []
  {
    assert (log + [(t, m)])[..|log|] == log;
  }

  lemma SendKeepsSent(queues: map<string, seq<Message>>, log: seq<(string, Message)>, t: string, m: Message)
    requires SentOk(queues, log) && t in queues && Delivered(log, t) + [m] <= queues[t]
    ensures SentOk(queues, log + [(t, m)])
  {
    forall u | u in queues ensures Numbered(queues[u]) && Delivered(log + [(t, m)], u) <= queues[u] {
      DeliveredMore(log, t, m, u);
    }
  }

  lemma MarkOkMore(mark: int, sent: seq<Message>, waiting: set<string>, t: string, m: Message)
    requires MarkOk(mark, sent, waiting, t) && MsgKey(t, |sent|) in waiting
    ensures MarkOk(mark, sent + [m], waiting, t)
  {
  }

  lemma SendKeepsMarks(topics: set<string>, marks: map<string, int>, log: seq<(string, Message)>,
                       waiting: set<string>, t: string, m: Message)
    requires MarksOk(topics, marks, log, waiting) && MsgKey(t, |Delivered(log, t)|) in waiting
    ensures MarksOk(topics, marks, log + [(t, m)], waiting)
  {
    forall u | u in marks ensures MarkOk(marks[u], Delivered(log + [(t, m)], u), waiting, u) {
      DeliveredMore(log, t, m, u);
      if u == t {
        MarkOkMore(marks[u], Delivered(log, u), waiting, u, m);
      } else {
        assert Delivered(log + [(t, m)], u) == Delivered(log, u);
      }
    }
  }

  lemma SendKeepsWaiting(topics: set<string>, log: seq<(string, Message)>, waiting: set<string>, pc: Pc, m: Message)
    requires pc.Added? && WaitingOk(topics, log, waiting, pc)
    ensures WaitingOk(topics, log + [(pc.topic, m)], waiting, Batch(pc.todo, pc.topic, pc.rest))
  {
    forall t, o: nat | MsgKey(t, o) in waiting ensures t in topics && o < |Delivered(log + [(pc.topic, m)], t)| {
      DeliveredMore(log, pc.topic, m, t);
    }
  }

  lemma SendKeepsLoop(topics: set<string>, marks: map<string, int>, goal: map<string, nat>,
                      log: seq<(string, Message)>, pc: Pc, m: Message)
    requires pc.Added? && pc.topic !in pc.todo && LoopOk(topics, marks, goal, log, pc)
    ensures LoopOk(topics, marks, goal, log + [(pc.topic, m)], Batch(pc.todo, pc.topic, pc.rest))
  {
    forall t ensures t != pc.topic ==> Delivered(log + [(pc.topic, m)], t) == Delivered(log, t) {
      DeliveredMore(log, pc.topic, m, t);
    }
  }

  lemma SendKeepsBatch(queue: seq<Message>, goal: map<string, nat>, log: seq<(string, Message)>, t: string,
                       rest: seq<Message>)
    requires BatchOk(queue, goal, log, t, rest) && rest != [] && Delivered(log, t) <= queue
    ensures Delivered(log, t) + [rest[0]] <= queue && BatchOk(queue, goal, log + [(t, rest[0])], t, rest[1..])
  {
    DeliveredMore(log, t, rest[0], t);
    assert rest[0] == queue[|Delivered(log, t)|];
  }

  lemma OnSend(s: State)
    requires Inv(s) && Enabled(s, Send)
    ensures Inv(Apply(s, Send))
  {
    var t, m := s.pc.topic, s.pc.rest[0];
    SendKeepsBatch(s.queues[t], s.goal, s.log, t, s.pc.rest);
    SendKeepsSent(s.queues, s.log, t, m);
    SendKeepsMarks(s.queues.Keys, s.marks, s.log, s.waiting, t, m);
    SendKeepsWaiting(s.queues.Keys, s.log, s.waiting, s.pc, m);
    SendKeepsLoop(s.queues.Keys, s.marks, s.goal, s.log, s.pc, m);
  }

  // ---------- returning ----------

  lemma OnReturn(s: State)
    requires Inv(s) && Enabled(s, Return)
    ensures Inv(Apply(s, Return)) && s.waiting == {} && AllSettled(s.queues.Keys, s.marks, s.log)
  {
    assert |s.waiting| == 0;
    forall t | t in s.queues.Keys ensures Settled(s.marks, s.log, t) {
      var sent := Delivered(s.log, t);
      assert MarkOk(s.marks[t], sent, s.waiting, t);
      if sent != [] {
        var last := |sent| - 1;
        assert MsgKey(t, last) !in s.waiting;
      }
    }
  }

  lemma InvStep(s: State, e: Event)
    requires Inv(s) && Enabled(s, e)
    ensures Inv(Apply(s, e))
  {
    match e
    case Produce(t, k, v) => OnProduce(s, t, k, v);
    case Mark(t, o) => OnMark(s, t, o);
    case Reserve => OnReserve(s);
    case AddOne => OnAddOne(s);
    case Send => OnSend(s);
    case Return => OnReturn(s);
    case _ => OnQueueStep(s, e);
  }

  lemma {:induction false} InvRun(run: seq<State>, events: seq<Event>, n: nat)
    requires IsRun(run, events) && n < |run|
    ensures Inv(run[n])
  {
    if n == 0 {
      InitInv(run[0]);
    } else {
      InvRun(run, events, n - 1);
      InvStep(run[n - 1], events[n - 1]);
    }
  }

  // ---------- whole runs ----------

  /** The panic about duplicate offsets cannot happen. */
  lemma NeverPanics(run: seq<State>, events: seq<Event>, n: nat)
    requires IsRun(run, events) && n < |run|
    ensures !run[n].pc.Panicked?
  {
    InvRun(run, events, n);
  }

  /** At any time a claim has been sent the messages of its queue from the first on, in order, each once. */
  lemma EachMessageOnce(run: seq<State>, events: seq<Event>, n: nat, t: string)
    requires IsRun(run, events) && n < |run| && t in run[n].queues
    ensures Delivered(run[n].log, t) <= run[n].queues[t] && Numbered(Delivered(run[n].log, t))
  {
    InvRun(run, events, n);
  }

  lemma StepGrows(s: State, e: Event, t: string)
    requires Enabled(s, e) && t in s.queues
    ensures t in Apply(s, e).queues && s.queues[t] <= Apply(s, e).queues[t]
  {
  }

  lemma StepRemembers(s: State, e: Event)
    requires Enabled(s, e) && !e.Begin?
    ensures Apply(s, e).goal == s.goal && Apply(s, e).start == s.start
  {
  }

  lemma {:induction false} QueuesGrow(run: seq<State>, events: seq<Event>, b: nat, n: nat, t: string)
    requires IsRun(run, events) && b <= n < |run| && t in run[b].queues
    ensures t in run[n].queues && run[b].queues[t] <= run[n].queues[t]
  {
    if b < n {
      QueuesGrow(run, events, b, n - 1, t);
      StepGrows(run[n - 1], events[n - 1], t);
    }
  }

  lemma {:induction false} CallRemembers(run: seq<State>, events: seq<Event>, b: nat, n: nat)
    requires IsRun(run, events) && b < n < |run| && events[b].Begin? && forall k | b < k < n :: !events[k].Begin?
    ensures run[n].goal == Lengths(run[b].queues) && run[n].start == |run[b].log|
  {
    if b + 1 < n {
      CallRemembers(run, events, b, n - 1);
      StepRemembers(run[n - 1], events[n - 1]);
    } else {
      assert run[n] == Apply(run[b], events[b]);
    }
  }

  /**
    When catchupAndWait, begun at step b, returns at step n, nothing is waiting, every mark is at the end
    of what was sent, all that was in the queues at step b has been sent, and the number it returns is
    the number of messages it sent.
   */
  lemma CatchupIsComplete(run: seq<State>, events: seq<Event>, b: nat, n: nat)
    requires IsRun(run, events) && b < n < |events| && events[b].Begin? && events[n].Return?
    requires forall k | b < k < n :: !events[k].Begin?
    ensures run[n].waiting == {} && run[n].wg == 0 && run[n].pushed + |run[b].log| == |run[n].log|
    ensures forall t | t in run[n].queues :: t in run[n].marks && run[n].marks[t] == |Delivered(run[n].log, t)|
    ensures forall t | t in run[b].queues :: run[b].queues[t] <= Delivered(run[n].log, t)
  {
    InvRun(run, events, n);
    OnReturn(run[n]);
    CallRemembers(run, events, b, n);
    var s := run[n];
    forall t | t in s.queues ensures t in s.marks && s.marks[t] == |Delivered(s.log, t)| {
      assert Settled(s.marks, s.log, t);
    }
    forall t | t in run[b].queues ensures run[b].queues[t] <= Delivered(s.log, t) {
      QueuesGrow(run, events, b, n, t);
      assert Reached(s.goal, s.log, t);
    }
  }
}
