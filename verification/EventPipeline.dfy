/**
  The telemetry pipeline: writers push onto a bounded queue, a flusher turns the queue
  into event files, a reader hands the files to the sender.
  proxy_agent_shared/src/telemetry/event_logger.rs and
  proxy_agent/src/telemetry/event_reader.rs.

  Writers, flusher and reader interleave step by step.  A step of the flusher or the reader
  is one access to the queue, the stop flag or the event directory.
 */
module EventPipeline {
  import opened Prelude
  import opened Text
  import opened Batching

  const QUEUE_CAPACITY: nat := 1000

  datatype Event = Event(level: string, message: string, taskName: string, moduleName: string)

  /** An event file: readable, or left half-written by a failed write. */
  datatype File = Readable(events: seq<Event>) | Broken

  datatype Flusher =
    | Top                                          // loop head
    | Asleep
    | Closing                                      // stop flag seen
    | Measuring
    | Popping(left: nat, hand: seq<Event>)
    | Writing(hand: seq<Event>)
    | Exited

  datatype Reader =
    | Waiting
    | Visiting(names: seq<nat>)
    | Holding(name: nat, events: seq<Event>, names: seq<nat>)   // file read, not yet handed over
    | Cleaning(name: nat, names: seq<nat>)                      // handed over, file not yet removed

  datatype World = World(
    queue: seq<Event>, closed: bool, stopping: bool, files: map<nat, File>, flusher: Flusher, reader: Reader,
    accepted: seq<Event>, sent: seq<Event>, overLimit: seq<Event>, unwritten: seq<Event>, tooLarge: seq<Event>)

  /** How a write of an event file ends. */
  datatype WriteOutcome = Stored | NotCreated | HalfWritten

  datatype Step =
    | Push(event: Event)
    | Stop
    | LoopHead
    | Wake
    | CloseQueue
    | Measure
    | Pop
    | List(readable: bool)
    | WriteFile(name: nat, outcome: WriteOutcome)
    | ListFiles(names: seq<nat>)
    | ReadFile
    | HandOver
    | RemoveFile

  // ---------- the length of a message ----------

  const MAX_MESSAGE_LENGTH: nat := 4096

  /** `&s[..n]` of a text longer than that: None when byte `n` is not at the start of a character. */
  function CutAtByte(s: string, n: nat): (r: Option<string>)
    ensures r.Some? ==> r.value <= s && ByteLen(r.value) == n
  {
    if n == 0 then Some("")
    else if s == "" || n < CharBytes(s[0]) then None
    else
      match CutAtByte(s[1..], n - CharBytes(s[0]))
      case None => None
      case Some(t) => assert ([s[0]] + t)[1..] == t; Some([s[0]] + t)
  }

  function CutMessage(message: string): Option<string> {
    if ByteLen(message) > MAX_MESSAGE_LENGTH then CutAtByte(message, MAX_MESSAGE_LENGTH) else Some(message)
  }

  lemma {:induction false} CutAtByteExactly(s: string, n: nat)
    ensures CutAtByte(s, n).Some? <==> exists k | 0 <= k <= |s| :: ByteLen(s[..k]) == n
  {
    if n == 0 {
      assert ByteLen(s[..0]) == 0;
    } else if s != "" {
      forall k | 0 < k <= |s| ensures ByteLen(s[..k]) == CharBytes(s[0]) + ByteLen(s[1..][..k - 1]) {
        assert s[..k][1..] == s[1..][..k - 1];
      }
      assert ByteLen(s[..0]) == 0;
      if n >= CharBytes(s[0]) {
        CutAtByteExactly(s[1..], n - CharBytes(s[0]));
        forall k | 0 <= k <= |s[1..]| && ByteLen(s[1..][..k]) == n - CharBytes(s[0]) ensures ByteLen(s[..k + 1]) == n {
        }
        forall k | 0 <= k <= |s| && ByteLen(s[..k]) == n ensures ByteLen(s[1..][..k - 1]) == n - CharBytes(s[0]) {
        }
      }
    }
  }

  /** A message is queued uncut up to 4096 bytes, cut to exactly 4096 beyond, and its writer panics exactly when
      it is longer and its characters leave no boundary at byte 4096; so never for ASCII text. */
  lemma CutMessageExactly(message: string)
    ensures CutMessage(message).None? <==>
            && ByteLen(message) > 4096
            && forall k | 0 <= k <= |message| :: ByteLen(message[..k]) != 4096
    ensures CutMessage(message).Some? ==>
            var cut := CutMessage(message).value;
            && cut <= message && ByteLen(cut) <= 4096
            && (cut != message ==> ByteLen(cut) == 4096)
    ensures IsAscii(message) ==> CutMessage(message).Some?
  {
    CutAtByteExactly(message, MAX_MESSAGE_LENGTH);
    if IsAscii(message) && ByteLen(message) > MAX_MESSAGE_LENGTH {
      ByteLenAscii(message);
      ByteLenAscii(message[..MAX_MESSAGE_LENGTH]);
    }
  }

  /** What became of an event that was written. */
  datatype Written = Queued | Refused | Panicked

  // ---------- the bounded queue ----------

  /** `concurrent_queue::ConcurrentQueue` as the logger uses it. */
  class EventQueue {
    var queue: seq<Event>
    var closed: bool

    constructor ()
      ensures queue == [] && !closed
    {
      queue, closed := [], false;
    }

    /** `EVENT_QUEUE.push` */
    method PushEvent(e: Event) returns (ok: bool)
      modifies this`queue
      ensures ok == (!closed && |old(queue)| < 1000)
      ensures queue == if ok then old(queue) + [e] else old(queue)
    {
      ok := !closed && |queue| < QUEUE_CAPACITY;
      if ok { queue := queue + [e]; }
    }

    /** `write_event` up to the local log: a message over the limit is cut at that byte, and the calling thread
        panics when the byte lies inside a character. */
    method WriteEvent(level: string, message: string, taskName: string, moduleName: string) returns (r: Written)
      modifies this`queue
      ensures r == Panicked <==> CutMessage(message).None?
      ensures r == Refused <==> CutMessage(message).Some? && (closed || |old(queue)| >= 1000)
      ensures queue == if r == Queued then old(queue) + [Event(level, CutMessage(message).value, taskName, moduleName)]
                       else old(queue)
    {
      var cut := CutMessage(message);
      if cut.None? { return Panicked; }
      var ok := PushEvent(Event(level, cut.value, taskName, moduleName));
      r := if ok then Queued else Refused;
    }

    method PopEvent() returns (e: Option<Event>)
      modifies this`queue
      ensures old(queue) == [] ==> e.None? && queue == []
      ensures old(queue) != [] ==> e == Some(old(queue)[0]) && queue == old(queue)[1..]
    {
      if queue == [] { return None; }
      e := Some(queue[0]);
      queue := queue[1..];
    }

    /** Lines 127-140: pop as many events as the queue held; pops that find it empty are only logged. The loop
        is a run of the flusher's pops. */
    method Drain(len: nat, ghost l: Limit<Event>, ghost maxFiles: nat, ghost w: World)
      returns (events: seq<Event>, ghost steps: seq<Step>, ghost end: World)
      requires w.queue == queue && w.flusher == Popping(len, [])
      modifies this`queue
      ensures events + queue == old(queue)
      ensures |events| == if len <= |old(queue)| then len else |old(queue)|
      ensures Runs(l, maxFiles, w, steps, end) && end == w.(queue := queue, flusher := Popping(0, events))
    {
      events, steps, end := [], [], w;
      var i := 0;
      while i < len
        invariant 0 <= i <= len
        invariant events + queue == old(queue)
        invariant |events| == if i <= |old(queue)| then i else |old(queue)|
        invariant Runs(l, maxFiles, w, steps, end) && end == w.(queue := queue, flusher := Popping(len - i, events))
      {
        events, steps, end := PopInto(events, l, maxFiles, w, steps, end);
        i := i + 1;
      }
    }

    /** One turn of the loop. */
    method PopInto(before: seq<Event>, ghost l: Limit<Event>, ghost maxFiles: nat, ghost start: World,
                   ghost taken: seq<Step>, ghost w: World)
      returns (events: seq<Event>, ghost steps: seq<Step>, ghost end: World)
      requires Runs(l, maxFiles, start, taken, w)
      requires w.queue == queue && w.flusher.Popping? && w.flusher.left > 0 && w.flusher.hand == before
      modifies this`queue
      ensures events + queue == before + old(queue)
      ensures |events| == |before| + (if old(queue) == [] then 0 else 1)
      ensures Runs(l, maxFiles, start, steps, end)
      ensures end == w.(queue := queue, flusher := Popping(w.flusher.left - 1, events))
    {
      steps, end := Extend(l, maxFiles, start, taken, w, Pop);
      events := before;
      var e := PopEvent();
      match e {
        case Some(event) => events := events + [event];
        case None =>
      }
    }
  }

  // ---------- steps ----------

  predicate Enabled(w: World, s: Step) {
    match s
    case Push(_) => !w.closed && |w.queue| < QUEUE_CAPACITY
    case Stop => true
    case LoopHead => w.flusher.Top?
    case Wake => w.flusher.Asleep?
    case CloseQueue => w.flusher.Closing?
    case Measure => w.flusher.Measuring?
    case Pop => w.flusher.Popping? && w.flusher.left > 0
    case List(_) => w.flusher.Popping? && w.flusher.left == 0
    case WriteFile(name, _) => w.flusher.Writing? && name !in w.files
    case ListFiles(names) => w.reader.Waiting? && (forall n | n in names :: n in w.files) && Distinct(names)
    case ReadFile => w.reader.Visiting?
    case HandOver => w.reader.Holding?
    case RemoveFile => w.reader.Cleaning?
  }

  function AfterPop(w: World): World
    requires w.flusher.Popping? && w.flusher.left > 0
  {
    if w.queue == [] then w.(flusher := Popping(w.flusher.left - 1, w.flusher.hand))
    else w.(queue := w.queue[1..], flusher := Popping(w.flusher.left - 1, w.flusher.hand + [w.queue[0]]))
  }

  function Apply(l: Limit<Event>, maxFiles: nat, w: World, s: Step): World
    requires Enabled(w, s)
  {
    match s
    case Push(e) => w.(queue := w.queue + [e], accepted := w.accepted + [e])
    case Stop => w.(stopping := true)
    case LoopHead => w.(flusher := if w.closed then Exited else Asleep)
    case Wake => w.(flusher := if w.stopping then Closing else Measuring)
    case CloseQueue => w.(closed := true, flusher := Measuring)
    case Measure => w.(flusher := if w.queue == [] then Top else Popping(|w.queue|, []))
    case Pop => AfterPop(w)
    case List(readable) =>
      if readable && |w.files| >= maxFiles then w.(flusher := Top, overLimit := w.overLimit + w.flusher.hand)
      else w.(flusher := Writing(w.flusher.hand))
    case WriteFile(name, outcome) =>
      (match outcome
       case Stored => w.(flusher := Top, files := w.files[name := Readable(w.flusher.hand)])
       case NotCreated => w.(flusher := Top, unwritten := w.unwritten + w.flusher.hand)
       case HalfWritten =>
         w.(flusher := Top, files := w.files[name := Broken], unwritten := w.unwritten + w.flusher.hand))
    case ListFiles(names) => w.(reader := Visiting(names))
    case ReadFile =>
      if w.reader.names == [] then w.(reader := Waiting)
      else
        var name, names := w.reader.names[0], w.reader.names[1..];
        if name in w.files && w.files[name].Readable? then w.(reader := Holding(name, w.files[name].events, names))
        else w.(reader := Visiting(names))
    case HandOver =>
      w.(reader := Cleaning(w.reader.name, w.reader.names),
         sent := w.sent + Flatten(Batches(l, Reversed(w.reader.events))),
         tooLarge := w.tooLarge + Oversized(l, Reversed(w.reader.events)))
    case RemoveFile => w.(reader := Visiting(w.reader.names), files := w.files - {w.reader.name})
  }

  ghost predicate Runs(l: Limit<Event>, maxFiles: nat, w: World, steps: seq<Step>, end: World)
    decreases |steps|
  {
    if steps == [] then end == w
    else Enabled(w, steps[0]) && Runs(l, maxFiles, Apply(l, maxFiles, w, steps[0]), steps[1..], end)
  }

  lemma {:induction false} RunsConcat(l: Limit<Event>, maxFiles: nat, a: World, s: seq<Step>, b: World,
                                      t: seq<Step>, c: World)
    requires Runs(l, maxFiles, a, s, b) && Runs(l, maxFiles, b, t, c)
    ensures Runs(l, maxFiles, a, s + t, c)
    decreases |s|
  {
    if s == [] {
      assert s + t == t;
    } else {
      assert (s + t)[1..] == s[1..] + t;
      RunsConcat(l, maxFiles, Apply(l, maxFiles, a, s[0]), s[1..], b, t, c);
    }
  }

  lemma Extend(l: Limit<Event>, maxFiles: nat, a: World, s: seq<Step>, b: World, step: Step)
    returns (t: seq<Step>, c: World)
    requires Runs(l, maxFiles, a, s, b) && Enabled(b, step)
    ensures t == s + [step] && c == Apply(l, maxFiles, b, step) && Runs(l, maxFiles, a, t, c)
  {
    t, c := s + [step], Apply(l, maxFiles, b, step);
    assert Runs(l, maxFiles, b, [step], c);
    RunsConcat(l, maxFiles, a, s, b, [step], c);
  }

  /** A starting process: nothing in its hands, and event files as earlier processes left them, whose events
      count as accepted. */
  ghost predicate Initial(w: World) {
    && w == World([], false, false, w.files, Top, Waiting, w.accepted, [], [], [], [])
    && forall e :: multiset(w.accepted)[e] == StoredIn(w.files, e)
  }

  // ---------- where the events are ----------

  function CopiesIn(f: File, e: Event): nat {
    match f case Readable(es) => multiset(es)[e] case Broken => 0
  }

  /** Copies of an event over a set of files. */
  ghost function StoredIn(files: map<nat, File>, e: Event): nat {
    if files == map[] then 0
    else
      var n :| n in files;
      CopiesIn(files[n], e) + StoredIn(files - {n}, e)
  }

  lemma {:induction false} StoredWithout(files: map<nat, File>, n: nat, e: Event)
    requires n in files
    ensures StoredIn(files, e) == CopiesIn(files[n], e) + StoredIn(files - {n}, e)
    decreases |files|
  {
    var k :| k in files && StoredIn(files, e) == CopiesIn(files[k], e) + StoredIn(files - {k}, e);
    if k != n {
      StoredWithout(files - {k}, n, e);
      StoredWithout(files - {n}, k, e);
      assert files - {k} - {n} == files - {n} - {k};
    }
  }

  lemma StoredWith(files: map<nat, File>, n: nat, f: File, e: Event)
    requires n !in files
    ensures StoredIn(files[n := f], e) == CopiesIn(f, e) + StoredIn(files, e)
  {
    StoredWithout(files[n := f], n, e);
    assert files[n := f] - {n} == files;
  }

  function InFlusher(f: Flusher): seq<Event> {
    if f.Popping? || f.Writing? then f.hand else []
  }

  /** Files whose events have not been handed over: the file being read counts as in the reader's hands. */
  function Pending(w: World): map<nat, File> {
    if w.reader.Holding? || w.reader.Cleaning? then w.files - {w.reader.name} else w.files
  }

  function InReader(r: Reader): seq<Event> { if r.Holding? then r.events else [] }

  /** How many copies of an event the pipeline holds or has disposed of, over all places. */
  ghost function Copies(w: World, e: Event): nat {
    multiset(w.queue)[e] + multiset(InFlusher(w.flusher))[e] + StoredIn(Pending(w), e) + multiset(InReader(w.reader))[e]
    + multiset(w.sent)[e] + multiset(w.overLimit)[e] + multiset(w.unwritten)[e] + multiset(w.tooLarge)[e]
  }

  /** Every accepted event is in exactly one place: each is there as often as it was accepted. */
  ghost predicate Accounted(w: World) {
    forall e :: multiset(w.accepted)[e] == Copies(w, e)
  }

  /** The reader's list names different files, and the one in hand is not listed again. */
  predicate ReaderSane(w: World) {
    match w.reader
    case Waiting => true
    case Visiting(names) => Distinct(names)
    case Holding(name, events, names) =>
      Distinct(names) && name !in names && name in w.files && w.files[name] == Readable(events)
    case Cleaning(name, names) => Distinct(names) && name !in names && name in w.files && w.files[name].Readable?
  }

  /** Once the queue is closed, what the flusher still has to pop is all there is. */
  predicate Draining(w: World) {
    && (w.flusher.Popping? ==> w.flusher.left <= |w.queue|)
    && (w.closed && w.flusher.Popping? ==> w.flusher.left == |w.queue|)
    && (w.closed && !w.flusher.Popping? && !w.flusher.Measuring? ==> w.queue == [])
    && (w.flusher.Asleep? || w.flusher.Closing? ==> !w.closed)
    && (w.flusher.Exited? ==> w.closed)
  }

  ghost predicate Invariant(w: World) {
    Accounted(w) && ReaderSane(w) && Draining(w)
  }

  lemma PushOrPopCopies(w: World, v: World, e: Event)
    requires v.reader == w.reader && v.files == w.files && v.sent == w.sent && v.overLimit == w.overLimit
    requires v.unwritten == w.unwritten && v.tooLarge == w.tooLarge && v.accepted == w.accepted
    requires InFlusher(v.flusher) + v.queue == InFlusher(w.flusher) + w.queue
    ensures Copies(v, e) == Copies(w, e)
  {
    assert multiset(InFlusher(v.flusher) + v.queue)[e] == multiset(InFlusher(v.flusher))[e] + multiset(v.queue)[e];
    assert multiset(InFlusher(w.flusher) + w.queue)[e] == multiset(InFlusher(w.flusher))[e] + multiset(w.queue)[e];
  }

  predicate IsQueueStep(s: Step) {
    s.Stop? || s.LoopHead? || s.Wake? || s.CloseQueue? || s.Measure? || s.Pop?
  }

  lemma QueueStepCopies(l: Limit<Event>, maxFiles: nat, w: World, s: Step, e: Event)
    requires Draining(w) && Enabled(w, s) && IsQueueStep(s)
    ensures Copies(Apply(l, maxFiles, w, s), e) == Copies(w, e) && Apply(l, maxFiles, w, s).accepted == w.accepted
  {
    var v := Apply(l, maxFiles, w, s);
    if s.Pop? {
      assert w.queue == [w.queue[0]] + w.queue[1..];
    }
    PushOrPopCopies(w, v, e);
  }

  lemma PushCopies(l: Limit<Event>, maxFiles: nat, w: World, s: Step, e: Event)
    requires Enabled(w, s) && s.Push?
    ensures var v := Apply(l, maxFiles, w, s);
            Copies(v, e) - Copies(w, e) == multiset(v.accepted)[e] - multiset(w.accepted)[e]
  {
  }

  lemma DropCopies(w: World, e: Event)
    requires w.flusher.Popping? || w.flusher.Writing?
    ensures Copies(w.(flusher := Top, overLimit := w.overLimit + w.flusher.hand), e) == Copies(w, e)
    ensures Copies(w.(flusher := Top, unwritten := w.unwritten + w.flusher.hand), e) == Copies(w, e)
    ensures Copies(w.(flusher := Writing(w.flusher.hand)), e) == Copies(w, e)
  {
    assert multiset(w.overLimit + w.flusher.hand)[e] == multiset(w.overLimit)[e] + multiset(w.flusher.hand)[e];
    assert multiset(w.unwritten + w.flusher.hand)[e] == multiset(w.unwritten)[e] + multiset(w.flusher.hand)[e];
  }

  lemma StoreCopies(w: World, name: nat, f: File, e: Event)
    requires ReaderSane(w) && name !in w.files
    ensures Copies(w.(files := w.files[name := f]), e) == Copies(w, e) + CopiesIn(f, e)
  {
    var v := w.(files := w.files[name := f]);
    assert Pending(v) == Pending(w)[name := f];
    StoredWith(Pending(w), name, f, e);
  }

  lemma StoreHand(w: World, name: nat, e: Event)
    requires ReaderSane(w) && name !in w.files && w.flusher.Writing?
    ensures Copies(w.(flusher := Top, files := w.files[name := Readable(w.flusher.hand)]), e) == Copies(w, e)
  {
    var emptied := w.(flusher := Top);
    StoreCopies(emptied, name, Readable(w.flusher.hand), e);
    assert Copies(w, e) == Copies(emptied, e) + multiset(w.flusher.hand)[e];
  }

  lemma WriteCopies(l: Limit<Event>, maxFiles: nat, w: World, s: Step, e: Event)
    requires ReaderSane(w) && Enabled(w, s) && s.WriteFile?
    ensures Copies(Apply(l, maxFiles, w, s), e) == Copies(w, e) && Apply(l, maxFiles, w, s).accepted == w.accepted
  {
    DropCopies(w, e);
    match s.outcome {
      case Stored => StoreHand(w, s.name, e);
      case NotCreated =>
      case HalfWritten => StoreCopies(w.(flusher := Top, unwritten := w.unwritten + w.flusher.hand), s.name, Broken, e);
    }
  }

  lemma TakeCopies(w: World, name: nat, names: seq<nat>, e: Event)
    requires w.reader.Visiting? && name in w.files && w.files[name].Readable?
    ensures Copies(w.(reader := Holding(name, w.files[name].events, names)), e) == Copies(w, e)
  {
    StoredWithout(w.files, name, e);
  }

  lemma ReadCopies(l: Limit<Event>, maxFiles: nat, w: World, s: Step, e: Event)
    requires ReaderSane(w) && Enabled(w, s) && s.ReadFile?
    ensures Copies(Apply(l, maxFiles, w, s), e) == Copies(w, e) && Apply(l, maxFiles, w, s).accepted == w.accepted
  {
    var v := Apply(l, maxFiles, w, s);
    if v.reader.Holding? {
      TakeCopies(w, v.reader.name, v.reader.names, e);
      assert v == w.(reader := Holding(v.reader.name, w.files[v.reader.name].events, v.reader.names));
    } else {
      assert v == w.(reader := v.reader) && Pending(v) == Pending(w);
    }
  }

  lemma HandOverCopies(l: Limit<Event>, maxFiles: nat, w: World, s: Step, e: Event)
    requires Enabled(w, s) && s.HandOver?
    ensures Copies(Apply(l, maxFiles, w, s), e) == Copies(w, e) && Apply(l, maxFiles, w, s).accepted == w.accepted
  {
    var v := Apply(l, maxFiles, w, s);
    var es := w.reader.events;
    HandOverCounts(l, es, e);
    assert Pending(v) == Pending(w);
    assert multiset(v.sent)[e] == multiset(w.sent)[e] + multiset(Flatten(Batches(l, Reversed(es))))[e];
    assert multiset(v.tooLarge)[e] == multiset(w.tooLarge)[e] + multiset(Oversized(l, Reversed(es)))[e];
  }

  lemma SamePlacesCopies(l: Limit<Event>, maxFiles: nat, w: World, s: Step, e: Event)
    requires ReaderSane(w) && Enabled(w, s) && (s.ListFiles? || s.RemoveFile?)
    ensures Copies(Apply(l, maxFiles, w, s), e) == Copies(w, e) && Apply(l, maxFiles, w, s).accepted == w.accepted
  {
    assert Pending(Apply(l, maxFiles, w, s)) == Pending(w);
  }

  lemma HandOverCounts(l: Limit<Event>, es: seq<Event>, e: Event)
    ensures multiset(Flatten(Batches(l, Reversed(es))))[e] + multiset(Oversized(l, Reversed(es)))[e] == multiset(es)[e]
  {
    SendingConserves(l, es);
  }

  lemma StepKeepsAccounts(l: Limit<Event>, maxFiles: nat, w: World, s: Step, e: Event)
    requires Draining(w) && ReaderSane(w) && Enabled(w, s) && multiset(w.accepted)[e] == Copies(w, e)
    ensures multiset(Apply(l, maxFiles, w, s).accepted)[e] == Copies(Apply(l, maxFiles, w, s), e)
  {
    if s.Push? {
      PushCopies(l, maxFiles, w, s, e);
    } else if IsQueueStep(s) {
      QueueStepCopies(l, maxFiles, w, s, e);
    } else {
      match s {
        case List(_) => DropCopies(w, e);
        case WriteFile(_, _) => WriteCopies(l, maxFiles, w, s, e);
        case ReadFile => ReadCopies(l, maxFiles, w, s, e);
        case HandOver => HandOverCopies(l, maxFiles, w, s, e);
        case _ => SamePlacesCopies(l, maxFiles, w, s, e);
      }
    }
  }

  lemma StepKeepsInvariant(l: Limit<Event>, maxFiles: nat, w: World, s: Step)
    requires Invariant(w) && Enabled(w, s)
    ensures Invariant(Apply(l, maxFiles, w, s))
  {
    forall e ensures multiset(Apply(l, maxFiles, w, s).accepted)[e] == Copies(Apply(l, maxFiles, w, s), e) {
      StepKeepsAccounts(l, maxFiles, w, s, e);
    }
    StepKeepsReader(l, maxFiles, w, s);
    StepKeepsDraining(l, maxFiles, w, s);
  }

  /** Steps of writers and flusher leave the reader and the files it has in hand alone. */
  lemma OthersKeepReader(l: Limit<Event>, maxFiles: nat, w: World, s: Step)
    requires ReaderSane(w) && Enabled(w, s) && (s.Push? || IsQueueStep(s) || s.List? || s.WriteFile?)
    ensures ReaderSane(Apply(l, maxFiles, w, s))
  {
    var v := Apply(l, maxFiles, w, s);
    assert v.reader == w.reader;
    assert forall n | n in w.files :: n in v.files && v.files[n] == w.files[n];
  }

  lemma ReadKeepsReader(l: Limit<Event>, maxFiles: nat, w: World)
    requires ReaderSane(w) && Enabled(w, ReadFile)
    ensures ReaderSane(Apply(l, maxFiles, w, ReadFile))
  {
    if w.reader.names != [] {
      assert w.reader.names == [w.reader.names[0]] + w.reader.names[1..];
    }
  }

  lemma StepKeepsReader(l: Limit<Event>, maxFiles: nat, w: World, s: Step)
    requires ReaderSane(w) && Enabled(w, s)
    ensures ReaderSane(Apply(l, maxFiles, w, s))
  {
    if s.ReadFile? {
      ReadKeepsReader(l, maxFiles, w);
    } else if s.Push? || IsQueueStep(s) || s.List? || s.WriteFile? {
      OthersKeepReader(l, maxFiles, w, s);
    }
  }

  lemma StepKeepsDraining(l: Limit<Event>, maxFiles: nat, w: World, s: Step)
    requires Draining(w) && Enabled(w, s)
    ensures Draining(Apply(l, maxFiles, w, s))
  {
  }

  lemma {:induction false} RunKeepsInvariant(l: Limit<Event>, maxFiles: nat, w: World, steps: seq<Step>, end: World)
    requires Invariant(w) && Runs(l, maxFiles, w, steps, end)
    ensures Invariant(end)
    decreases |steps|
  {
    if steps != [] {
      StepKeepsInvariant(l, maxFiles, w, steps[0]);
      RunKeepsInvariant(l, maxFiles, Apply(l, maxFiles, w, steps[0]), steps[1..], end);
    }
  }

  /**
    Conservation.  Under every interleaving each accepted event is in exactly one place: the
    queue, the flusher's hands, one event file, the reader's hands, sent, or dropped by the
    file limit, a failed write or the size limit.  When the flusher has exited, the queue is
    closed and empty.
   */
  lemma EventsAreConserved(l: Limit<Event>, maxFiles: nat, w: World, steps: seq<Step>, end: World)
    requires Initial(w) && Runs(l, maxFiles, w, steps, end)
    ensures Accounted(end)
    ensures end.flusher.Exited? ==> end.closed && end.queue == []
  {
    RunKeepsInvariant(l, maxFiles, w, steps, end);
  }

  /** A listing drops the batch exactly when it shows the directory at its maximum; otherwise it is written. */
  lemma ListExactly(l: Limit<Event>, maxFiles: nat, w: World, readable: bool)
    requires Enabled(w, List(readable))
    ensures Apply(l, maxFiles, w, List(readable)) ==
            if readable && |w.files| >= maxFiles then w.(flusher := Top, overLimit := w.overLimit + w.flusher.hand)
            else w.(flusher := Writing(w.flusher.hand))
  {
  }

  /** A write stores the batch, or the batch is lost unwritten. */
  lemma WriteExactly(l: Limit<Event>, maxFiles: nat, w: World, name: nat, outcome: WriteOutcome)
    requires Enabled(w, WriteFile(name, outcome))
    ensures var v := Apply(l, maxFiles, w, WriteFile(name, outcome));
            && (outcome == Stored ==> v == w.(flusher := Top, files := w.files[name := Readable(w.flusher.hand)]))
            && (outcome != Stored ==> v.unwritten == w.unwritten + w.flusher.hand && v.overLimit == w.overLimit)
  {
  }

  /** No other step drops an event, but that of the reader for its size. */
  lemma OthersDropNothing(l: Limit<Event>, maxFiles: nat, w: World, s: Step)
    requires Enabled(w, s) && !s.List? && !s.WriteFile?
    ensures var v := Apply(l, maxFiles, w, s);
            && v.overLimit == w.overLimit && v.unwritten == w.unwritten
            && (!s.HandOver? ==> v.tooLarge == w.tooLarge && v.sent == w.sent)
  {
  }

  /** The reader hands over all events of a file but those too large by themselves. */
  lemma HandOverExactly(l: Limit<Event>, maxFiles: nat, w: World)
    requires Enabled(w, HandOver)
    ensures var v := Apply(l, maxFiles, w, HandOver);
            && v.tooLarge == w.tooLarge + Oversized(l, Reversed(w.reader.events))
            && v.sent == w.sent + Kept(l, Reversed(w.reader.events))
  {
    BatchesConserve(l, Reversed(w.reader.events));
  }

  // ---------- the file limit ----------

  predicate Bounded(maxFiles: nat, w: World) {
    |w.files| <= maxFiles && (w.flusher.Writing? ==> |w.files| < maxFiles)
  }

  /** A listing that could not be read with the directory at its maximum. */
  predicate BlindAtLimit(maxFiles: nat, w: World, s: Step) {
    s == List(false) && |w.files| >= maxFiles
  }

  ghost predicate NeverBlind(l: Limit<Event>, maxFiles: nat, w: World, steps: seq<Step>)
    decreases |steps|
  {
    steps == []
    || (Enabled(w, steps[0]) ==>
          !BlindAtLimit(maxFiles, w, steps[0]) && NeverBlind(l, maxFiles, Apply(l, maxFiles, w, steps[0]), steps[1..]))
  }

  lemma StepKeepsBound(l: Limit<Event>, maxFiles: nat, w: World, s: Step)
    requires Bounded(maxFiles, w) && ReaderSane(w) && Enabled(w, s) && !BlindAtLimit(maxFiles, w, s)
    ensures Bounded(maxFiles, Apply(l, maxFiles, w, s))
  {
    var v := Apply(l, maxFiles, w, s);
    if s.RemoveFile? {
      var n := w.reader.name;
      assert w.files == (w.files - {n})[n := w.files[n]];
    } else if !s.WriteFile? {
      assert v.files == w.files;
    }
  }

  /** Unless a listing fails while the directory is at its maximum, the number of event files never passes it. */
  lemma {:induction false} FileCountBounded(l: Limit<Event>, maxFiles: nat, w: World, steps: seq<Step>, end: World)
    requires Invariant(w) && Bounded(maxFiles, w) && Runs(l, maxFiles, w, steps, end)
    requires NeverBlind(l, maxFiles, w, steps)
    ensures Bounded(maxFiles, end)
    decreases |steps|
  {
    if steps != [] {
      StepKeepsInvariant(l, maxFiles, w, steps[0]);
      StepKeepsBound(l, maxFiles, w, steps[0]);
      FileCountBounded(l, maxFiles, Apply(l, maxFiles, w, steps[0]), steps[1..], end);
    }
  }

  lemma {:induction false} FreshName(names: set<nat>) returns (n: nat)
    ensures forall m | m in names :: m < n
  {
    if names == {} {
      n := 0;
    } else {
      var m :| m in names;
      n := FreshName(names - {m});
      n := if n <= m then m + 1 else n;
      assert names == (names - {m}) + {m};
    }
  }

  /** Some run without a failed listing at the limit leads past the maximum. */
  ghost predicate PastReachable(l: Limit<Event>, maxFiles: nat, w: World) {
    exists steps, end :: Runs(l, maxFiles, w, steps, end) && NeverBlind(l, maxFiles, w, steps) && |end.files| > maxFiles
  }

  lemma BlindThenPast(l: Limit<Event>, maxFiles: nat, w: World, s: Step)
    requires Enabled(w, s) && BlindAtLimit(maxFiles, w, s)
    ensures PastReachable(l, maxFiles, Apply(l, maxFiles, w, s))
  {
    var v := Apply(l, maxFiles, w, s);
    var name := FreshName(w.files.Keys);
    assert name !in v.files;
    var step := WriteFile(name, Stored);
    var end := Apply(l, maxFiles, v, step);
    assert [step][1..] == [];
    assert |end.files| == |w.files| + 1;
    assert Runs(l, maxFiles, v, [step], end) && NeverBlind(l, maxFiles, v, [step]);
  }

  /** From every state within the bound, a step makes it possible to pass the maximum without another failed
      listing at the limit exactly when it is itself such a listing. */
  lemma BlindListingPassesLimit(l: Limit<Event>, maxFiles: nat, w: World, s: Step)
    requires Invariant(w) && Bounded(maxFiles, w) && Enabled(w, s)
    ensures BlindAtLimit(maxFiles, w, s) <==>
            PastReachable(l, maxFiles, Apply(l, maxFiles, w, s))
  {
    var v := Apply(l, maxFiles, w, s);
    if BlindAtLimit(maxFiles, w, s) {
      BlindThenPast(l, maxFiles, w, s);
    } else {
      StepKeepsInvariant(l, maxFiles, w, s);
      StepKeepsBound(l, maxFiles, w, s);
      forall steps, end | Runs(l, maxFiles, v, steps, end) && NeverBlind(l, maxFiles, v, steps)
        ensures |end.files| <= maxFiles
      {
        FileCountBounded(l, maxFiles, v, steps, end);
      }
    }
  }

  // ---------- files a failed write left behind ----------

  function BrokenNames(files: map<nat, File>): set<nat> {
    set n | n in files && files[n].Broken?
  }

  lemma StepKeepsBroken(l: Limit<Event>, maxFiles: nat, w: World, s: Step)
    requires ReaderSane(w) && Enabled(w, s)
    ensures BrokenNames(w.files) <= BrokenNames(Apply(l, maxFiles, w, s).files)
  {
    var v := Apply(l, maxFiles, w, s);
    forall n | n in BrokenNames(w.files) ensures n in v.files && v.files[n].Broken? {
    }
  }

  /** The reader skips a file it cannot read and never removes it. */
  lemma {:induction false} BrokenFilesStay(l: Limit<Event>, maxFiles: nat, w: World, steps: seq<Step>, end: World)
    requires Invariant(w) && Runs(l, maxFiles, w, steps, end)
    ensures BrokenNames(w.files) <= BrokenNames(end.files)
    decreases |steps|
  {
    if steps != [] {
      StepKeepsInvariant(l, maxFiles, w, steps[0]);
      StepKeepsBroken(l, maxFiles, w, steps[0]);
      BrokenFilesStay(l, maxFiles, Apply(l, maxFiles, w, steps[0]), steps[1..], end);
    }
  }

  lemma {:induction false} NoMoreThan(a: set<nat>, b: set<nat>)
    requires a <= b
    ensures |a| <= |b|
  {
    if a != {} {
      var n :| n in a;
      NoMoreThan(a - {n}, b - {n});
    }
  }

  /** The directory is full of files nobody will remove, and no batch is being written. */
  predicate Choked(maxFiles: nat, w: World) {
    |BrokenNames(w.files)| >= maxFiles && !w.flusher.Writing?
  }

  /** What has been dropped at the limit, is in the flusher's hands, or waits in the queue, in order. */
  function Flow(w: World): seq<Event> {
    w.overLimit + InFlusher(w.flusher) + w.queue
  }

  lemma FlowMoves(a: seq<Event>, b: seq<Event>, c: seq<Event>)
    ensures c != [] ==> a + (b + [c[0]]) + c[1..] == a + b + c
    ensures (a + b) + [] + c == a + b + c
  {
  }

  lemma FlowAdds(f: seq<Event>, g: seq<Event>, h: seq<Event>, a: seq<Event>, b: seq<Event>, c: seq<Event>,
                 pushed: seq<Event>)
    requires g == f + pushed && b == a + pushed && b <= c && h == g + c[|b|..]
    ensures a <= c && h == f + c[|a|..]
  {
    assert c[|a|..] == pushed + c[|b|..];
  }

  lemma ChokedStep(l: Limit<Event>, maxFiles: nat, w: World, s: Step)
    requires Invariant(w) && Choked(maxFiles, w) && Enabled(w, s) && !BlindAtLimit(maxFiles, w, s)
    ensures var v := Apply(l, maxFiles, w, s);
            var pushed := if s.Push? then [s.event] else [];
            && Choked(maxFiles, v) && v.files.Keys <= w.files.Keys
            && v.accepted == w.accepted + pushed && Flow(v) == Flow(w) + pushed
  {
    var v := Apply(l, maxFiles, w, s);
    StepKeepsBroken(l, maxFiles, w, s);
    NoMoreThan(BrokenNames(w.files), BrokenNames(v.files));
    NoMoreThan(BrokenNames(w.files), w.files.Keys);
    FlowMoves(w.overLimit, InFlusher(w.flusher), w.queue);
    assert w.accepted + [] == w.accepted && Flow(w) + [] == Flow(w);
  }

  /** Once as many files are broken as the directory may hold, every later batch is dropped as long as no listing
      fails: no file is written again, and all that is accepted goes through the queue to the dropped events. */
  lemma {:induction false} BrokenFilesChoke(l: Limit<Event>, maxFiles: nat, w: World, steps: seq<Step>, end: World)
    requires Invariant(w) && Choked(maxFiles, w)
    requires Runs(l, maxFiles, w, steps, end) && NeverBlind(l, maxFiles, w, steps)
    ensures end.files.Keys <= w.files.Keys && w.accepted <= end.accepted
    ensures Flow(end) == Flow(w) + end.accepted[|w.accepted|..]
    decreases |steps|
  {
    if steps != [] {
      var v := Apply(l, maxFiles, w, steps[0]);
      ChokedStep(l, maxFiles, w, steps[0]);
      StepKeepsInvariant(l, maxFiles, w, steps[0]);
      BrokenFilesChoke(l, maxFiles, v, steps[1..], end);
      FlowAdds(Flow(w), Flow(v), Flow(end), w.accepted, v.accepted, end.accepted,
               if steps[0].Push? then [steps[0].event] else []);
    }
  }

  // ---------- the way of an event ----------

  ghost predicate CanReach(l: Limit<Event>, maxFiles: nat, w: World, end: World) {
    exists steps :: Runs(l, maxFiles, w, steps, end)
  }

  lemma CanStay(l: Limit<Event>, maxFiles: nat, w: World)
    ensures CanReach(l, maxFiles, w, w)
  {
    assert Runs(l, maxFiles, w, [], w);
  }

  lemma CanStep(l: Limit<Event>, maxFiles: nat, a: World, b: World, step: Step)
    requires CanReach(l, maxFiles, a, b) && Enabled(b, step)
    ensures CanReach(l, maxFiles, a, Apply(l, maxFiles, b, step))
  {
    var s :| Runs(l, maxFiles, a, s, b);
    var t, c := Extend(l, maxFiles, a, s, b, step);
  }

  lemma {:induction false} PopAll(l: Limit<Event>, maxFiles: nat, start: World, w: World)
    requires CanReach(l, maxFiles, start, w) && w.flusher.Popping? && w.flusher.left == |w.queue|
    ensures CanReach(l, maxFiles, start, w.(queue := [], flusher := Popping(0, w.flusher.hand + w.queue)))
    decreases |w.queue|
  {
    if w.queue == [] {
      assert w.flusher.hand + w.queue == w.flusher.hand;
    } else {
      CanStep(l, maxFiles, start, w, Pop);
      PopAll(l, maxFiles, start, Apply(l, maxFiles, w, Pop));
      assert w.flusher.hand + [w.queue[0]] + w.queue[1..] == w.flusher.hand + w.queue;
    }
  }

  /** From its sleep, the flusher comes to measure the queue, closed if it was told to stop. */
  lemma WakesUp(l: Limit<Event>, maxFiles: nat, w: World)
    requires w.flusher.Asleep?
    ensures CanReach(l, maxFiles, w, w.(closed := w.closed || w.stopping, flusher := Measuring))
  {
    CanStay(l, maxFiles, w);
    CanStep(l, maxFiles, w, w, Wake);
    if w.stopping { CanStep(l, maxFiles, w, w.(flusher := Closing), CloseQueue); }
  }

  /** The flusher can always turn the whole queue into one file, in order: from its sleep, below the maximum. */
  lemma QueueBecomesFile(l: Limit<Event>, maxFiles: nat, w: World, name: nat)
    requires w.flusher.Asleep? && w.queue != [] && |w.files| < maxFiles && name !in w.files
    ensures CanReach(l, maxFiles, w, w.(queue := [], closed := w.closed || w.stopping, flusher := Top,
                                        files := w.files[name := Readable(w.queue)]))
  {
    var v := w.(closed := w.closed || w.stopping);
    WakesUp(l, maxFiles, w);
    CanStep(l, maxFiles, w, v.(flusher := Measuring), Measure);
    PopAll(l, maxFiles, w, v.(flusher := Popping(|w.queue|, [])));
    assert [] + w.queue == w.queue;
    CanStep(l, maxFiles, w, v.(queue := [], flusher := Popping(0, w.queue)), List(true));
    CanStep(l, maxFiles, w, v.(queue := [], flusher := Writing(w.queue)), WriteFile(name, Stored));
  }

  /** Once told to stop, it can always write what is queued and exit. */
  lemma StopEndsFlusher(l: Limit<Event>, maxFiles: nat, w: World, name: nat)
    requires w.flusher.Asleep? && w.stopping && |w.files| < maxFiles && name !in w.files
    ensures CanReach(l, maxFiles, w, w.(queue := [], closed := true, flusher := Exited,
                                        files := if w.queue == [] then w.files else w.files[name := Readable(w.queue)]))
  {
    if w.queue == [] {
      WakesUp(l, maxFiles, w);
      CanStep(l, maxFiles, w, w.(closed := true, flusher := Measuring), Measure);
      CanStep(l, maxFiles, w, w.(closed := true, flusher := Top), LoopHead);
    } else {
      QueueBecomesFile(l, maxFiles, w, name);
      CanStep(l, maxFiles, w, w.(queue := [], closed := true, flusher := Top,
                                 files := w.files[name := Readable(w.queue)]), LoopHead);
    }
  }

  /** The reader can always hand over a readable file: all its events that fit are sent, and it is removed. */
  lemma FileIsSent(l: Limit<Event>, maxFiles: nat, w: World, name: nat)
    requires w.reader.Waiting? && name in w.files && w.files[name].Readable?
    ensures var es := Reversed(w.files[name].events);
            CanReach(l, maxFiles, w, w.(sent := w.sent + Kept(l, es), tooLarge := w.tooLarge + Oversized(l, es),
                                        files := w.files - {name}))
  {
    var events := w.files[name].events;
    var es := Reversed(events);
    BatchesConserve(l, es);
    CanStay(l, maxFiles, w);
    CanStep(l, maxFiles, w, w, ListFiles([name]));
    assert [name][1..] == [];
    CanStep(l, maxFiles, w, w.(reader := Visiting([name])), ReadFile);
    CanStep(l, maxFiles, w, w.(reader := Holding(name, events, [])), HandOver);
    var handed := w.(sent := w.sent + Kept(l, es), tooLarge := w.tooLarge + Oversized(l, es));
    CanStep(l, maxFiles, w, handed.(reader := Cleaning(name, [])), RemoveFile);
    CanStep(l, maxFiles, w, handed.(reader := Visiting([]), files := w.files - {name}), ReadFile);
    assert handed.(reader := Waiting) == handed;
  }
}
