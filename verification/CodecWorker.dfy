/**
 The codec worker: a table of tasks by serial number, each with a codec and a running CRC.

 The codec is not modelled: what its constructor, append and flush do is part of each event.
 Timings, progress messages and script loading are left out.
 */
module CodecWorker {
  import opened Options
  import opened Crc32

  type Bytes = seq<bv8>

  datatype CrcType = Input | Output | Neither

  datatype Kind = NewTask | Append | Flush

  /** A codec class named by a message: what it asks to have summed, and whether construction succeeds. */
  datatype Opening = Opening(crcType: CrcType, constructs: bool)

  datatype CodecResult = Returned(output: Option<Bytes>) | Threw

  /** A message together with how the codec answers it. */
  datatype Event = Event(sn: nat, kind: Kind, opening: Option<Opening>, input: Option<Bytes>, result: CodecResult)

  datatype Reply =
    | Opened(sn: nat)
    | Data(sn: nat, kind: Kind, output: Option<Bytes>, crc: Option<bv32>)
    | Error(sn: nat, kind: Kind)

  datatype Task = Task(crcType: CrcType, crc: bv32)

  type State = map<nat, Task>

  // ----- one message -----

  /** The bytes of an append or flush that count towards a task's CRC. */
  function Chunk(crcType: CrcType, e: Event): Bytes {
    if e.kind == NewTask then []
    else if crcType == Input && e.input.Some? then e.input.value
    else if crcType == Output && e.result.Returned? && e.result.output.Some? then e.result.output.value
    else []
  }

  predicate Opens(e: Event) {
    e.opening.Some? && e.opening.value.constructs
  }

  function Fresh(e: Event): Task
    requires Opens(e)
  {
    Task(e.opening.value.crcType, INITIAL)
  }

  /** Append or flush on a task that exists. */
  function Process(task: Task, e: Event): (Option<Task>, Reply)
    requires e.kind != NewTask
  {
    if e.result.Threw? then (None, Error(e.sn, e.kind))
    else
      var crc := Feed(task.crc, Chunk(task.crcType, e));
      if e.kind == Append then
        (Some(task.(crc := crc)), Data(e.sn, Append, e.result.output, None))
      else
        (None, Data(e.sn, Flush, e.result.output, if task.crcType == Neither then None else Some(Final(crc))))
  }

  /** What a message does to its own task, and the messages posted back. */
  function React(task: Option<Task>, e: Event): (Option<Task>, seq<Reply>) {
    if e.kind == NewTask then
      if task.Some? || !Opens(e) then (task, [Error(e.sn, NewTask)])
      else (Some(Fresh(e)), [Opened(e.sn)])
    else if task.Some? then
      var (t, reply) := Process(task.value, e);
      (t, [reply])
    else if Opens(e) then
      // the codec is created on the first append
      var (t, reply) := Process(Fresh(e), e);
      (t, [Opened(e.sn), reply])
    else
      (None, [Error(e.sn, e.kind)])
  }

  function Get(st: State, sn: nat): Option<Task> {
    if sn in st then Some(st[sn]) else None
  }

  function Put(st: State, sn: nat, task: Option<Task>): State {
    if task.Some? then st[sn := task.value] else st - {sn}
  }

  /** The new task table and the messages posted back. */
  function Handle(st: State, e: Event): (State, seq<Reply>) {
    var (task, replies) := React(Get(st, e.sn), e);
    (Put(st, e.sn, task), replies)
  }

  function Run(st: State, es: seq<Event>): (State, seq<Reply>)
    decreases |es|
  {
    if es == [] then (st, [])
    else
      var (st', replies) := Handle(st, es[0]);
      var (final, more) := Run(st', es[1..]);
      (final, replies + more)
  }

  // ----- tasks do not interfere -----

  function EventsOf(es: seq<Event>, sn: nat): seq<Event> {
    if es == [] then []
    else (if es[0].sn == sn then [es[0]] else []) + EventsOf(es[1..], sn)
  }

  function RepliesOf(rs: seq<Reply>, sn: nat): seq<Reply> {
    if rs == [] then []
    else (if rs[0].sn == sn then [rs[0]] else []) + RepliesOf(rs[1..], sn)
  }

  lemma {:induction false} RepliesOfAppend(a: seq<Reply>, b: seq<Reply>, sn: nat)
    ensures RepliesOf(a + b, sn) == RepliesOf(a, sn) + RepliesOf(b, sn)
  {
    if a == [] {
      assert a + b == b;
    } else {
      var head := if a[0].sn == sn then [a[0]] else [];
      var rest := RepliesOf(a[1..], sn);
      assert (a + b)[0] == a[0] && (a + b)[1..] == a[1..] + b;
      RepliesOfAppend(a[1..], b, sn);
      assert RepliesOf(a + b, sn) == head + (rest + RepliesOf(b, sn));
      assert RepliesOf(a, sn) == head + rest;
    }
  }

  lemma RepliesOfOne(e: Event, task: Option<Task>, sn: nat)
    ensures RepliesOf(React(task, e).1, sn) == if e.sn == sn then React(task, e).1 else []
  {
    var replies := React(task, e).1;
    assert |replies| <= 2 && forall r :: r in replies ==> r.sn == e.sn;
    assert RepliesOf(replies[1..], sn) == if e.sn == sn then replies[1..] else [];
  }

  /** What a task sees of any interleaving is what it would see alone. */
  lemma {:induction false} NonInterference(a: State, b: State, es: seq<Event>, sn: nat)
    requires Get(a, sn) == Get(b, sn)
    ensures Get(Run(a, es).0, sn) == Get(Run(b, EventsOf(es, sn)).0, sn)
    ensures RepliesOf(Run(a, es).1, sn) == Run(b, EventsOf(es, sn)).1
    decreases |es|
  {
    if es != [] {
      var e, rest := es[0], es[1..];
      var a', replies := Handle(a, e).0, Handle(a, e).1;
      RepliesOfOne(e, Get(a, e.sn), sn);
      RepliesOfAppend(replies, Run(a', rest).1, sn);
      if e.sn == sn {
        assert EventsOf(es, sn)[1..] == EventsOf(rest, sn);
        NonInterference(a', Handle(b, e).0, rest, sn);
      } else {
        assert EventsOf(es, sn) == EventsOf(rest, sn);
        NonInterference(a', b, rest, sn);
      }
    }
  }

  // ----- the checksum of a session -----

  /** Everything a task has been given to sum, in order. */
  function Summed(crcType: CrcType, es: seq<Event>): Bytes {
    if es == [] then [] else Chunk(crcType, es[0]) + Summed(crcType, es[1..])
  }

  /** Successful appends of one task, ended by its successful flush. */
  ghost predicate Streams(es: seq<Event>, sn: nat) {
    && es != []
    && (forall i :: 0 <= i < |es| ==> es[i].sn == sn && es[i].result.Returned?)
    && (forall i :: 0 <= i < |es| - 1 ==> es[i].kind == Append)
    && es[|es| - 1].kind == Flush
  }

  /** The reply that ends a session in which bytes were summed from register crc. */
  function Closing(last: Event, task: Task, bytes: Bytes): Reply {
    Data(last.sn, Flush, if last.result.Returned? then last.result.output else None,
         if task.crcType == Neither then None else Some(Final(Feed(task.crc, bytes))))
  }

  lemma RunCons(st: State, es: seq<Event>)
    requires es != []
    ensures Run(st, es)
            == (Run(Handle(st, es[0]).0, es[1..]).0, Handle(st, es[0]).1 + Run(Handle(st, es[0]).0, es[1..]).1)
  {
  }

  lemma SplitChunk(task: Task, chunk: Bytes, more: Bytes, last: Event)
    ensures Closing(last, task.(crc := Feed(task.crc, chunk)), more) == Closing(last, task, chunk + more)
  {
    FeedAppend(task.crc, chunk, more);
  }

  lemma {:induction false} StreamChecksum(st: State, es: seq<Event>, sn: nat)
    requires sn in st && Streams(es, sn)
    ensures sn !in Run(st, es).0
    ensures Run(st, es).1 != []
    ensures Run(st, es).1[|Run(st, es).1| - 1] == Closing(es[|es| - 1], st[sn], Summed(st[sn].crcType, es))
    decreases |es|
  {
    var task, e, rest := st[sn], es[0], es[1..];
    var chunk := Chunk(task.crcType, e);
    RunCons(st, es);
    if |es| == 1 {
      assert chunk + Summed(task.crcType, rest) == chunk;
      assert Handle(st, e) == (st - {sn}, [Closing(e, task, chunk)]);
      assert Run(st - {sn}, rest) == (st - {sn}, []);
    } else {
      var next := st[sn := task.(crc := Feed(task.crc, chunk))];
      assert Handle(st, e).0 == next;
      StreamChecksum(next, rest, sn);
      SplitChunk(task, chunk, Summed(task.crcType, rest), es[|es| - 1]);
    }
  }

  /** One task from the message that opens it (newTask, or a first append or flush naming a codec) to its flush. */
  ghost predicate Session(es: seq<Event>, sn: nat) {
    && es != [] && es[0].sn == sn && Opens(es[0])
    && if es[0].kind == NewTask then Streams(es[1..], sn) else Streams(es, sn)
  }

  /** The first append of a codec does what newTask followed by that append would do. */
  lemma OpenThenProcess(st: State, e: Event)
    requires e.sn !in st && Opens(e) && e.kind != NewTask
    ensures var open := st[e.sn := Fresh(e)];
            Handle(st, e).0 == Handle(open, e).0 && Handle(st, e).1 == [Opened(e.sn)] + Handle(open, e).1
  {
    var open := st[e.sn := Fresh(e)];
    var task := Process(Fresh(e), e).0;
    assert Put(st, e.sn, task) == Put(open, e.sn, task);
  }

  lemma SessionAlone(st: State, own: seq<Event>, sn: nat)
    requires sn !in st && Session(own, sn)
    ensures sn !in Run(st, own).0
    ensures Run(st, own).1 != []
    ensures Run(st, own).1[|Run(st, own).1| - 1]
         == Closing(own[|own| - 1], Fresh(own[0]), Summed(Fresh(own[0]).crcType, own))
  {
    var e := own[0];
    var open := st[sn := Fresh(e)];
    RunCons(st, own);
    if e.kind == NewTask {
      StreamChecksum(open, own[1..], sn);
      assert Summed(Fresh(e).crcType, own) == Summed(Fresh(e).crcType, own[1..]);
    } else {
      OpenThenProcess(st, e);
      RunCons(open, own);
      StreamChecksum(open, own, sn);
    }
  }

  /**
   However a task's chunks are split and whatever other tasks do in between, the flush reply
   carries the CRC of the concatenation of that task's chunks.
   */
  lemma SessionChecksum(st: State, es: seq<Event>, sn: nat, crcType: CrcType)
    requires sn !in st && Session(EventsOf(es, sn), sn)
    requires EventsOf(es, sn)[0].opening.value.crcType == crcType != Neither
    ensures sn !in Run(st, es).0
    ensures RepliesOf(Run(st, es).1, sn) != []
    ensures var replies := RepliesOf(Run(st, es).1, sn);
            var last := replies[|replies| - 1];
            last.Data? && last.kind == Flush && last.crc == Some(Checksum(Summed(crcType, EventsOf(es, sn))))
  {
    NonInterference(st, st, es, sn);
    SessionAlone(st, EventsOf(es, sn), sn);
  }

  // ----- the no-op codec -----

  /** An append to the no-op codec hands its input back; its flush returns nothing. */
  predicate NoOp(e: Event) {
    e.result == Returned(if e.kind == Append then e.input else None)
  }

  /** The bytes that flushes bring as input. */
  function Flushed(es: seq<Event>): Bytes {
    if es == [] then []
    else (if es[0].kind == Flush && es[0].input.Some? then es[0].input.value else []) + Flushed(es[1..])
  }

  lemma {:induction false} NoOpLengths(es: seq<Event>)
    requires forall k :: 0 <= k < |es| ==> NoOp(es[k])
    ensures |Summed(Input, es)| == |Summed(Output, es)| + |Flushed(es)|
    ensures Flushed(es) == [] ==> Summed(Input, es) == Summed(Output, es)
  {
    if es != [] {
      NoOpLengths(es[1..]);
    }
  }

  /** Through the no-op codec, summing the output is summing the input exactly if flushes bring no bytes. */
  lemma NoOpSumsAlike(es: seq<Event>)
    requires forall k :: 0 <= k < |es| ==> NoOp(es[k])
    ensures Summed(Input, es) == Summed(Output, es) <==> Flushed(es) == []
  {
    NoOpLengths(es);
  }

  // ----- the worker -----

  datatype Entry = Entry(crcType: CrcType, digest: Digest)

  class Worker {
    const table: seq<bv32>
    var tasks: map<nat, Entry>
    var replies: seq<Reply>
    ghost var digests: set<Digest>  // every digest this worker has created

    ghost predicate Valid()
      reads this, digests
    {
      && IsTable(table)
      && (forall sn :: sn in tasks ==> tasks[sn].digest in digests && tasks[sn].digest.table == table)
      && (forall a, b :: a in tasks && b in tasks && a != b ==> tasks[a].digest != tasks[b].digest)
    }

    /** The abstract task table: each digest replaced by the register it holds. */
    ghost function View(): (st: State)
      reads this, digests
      requires Valid()
      ensures st.Keys == tasks.Keys
      ensures forall sn :: sn in tasks ==> st[sn] == Task(tasks[sn].crcType, tasks[sn].digest.crc)
    {
      map sn | sn in tasks :: Task(tasks[sn].crcType, tasks[sn].digest.crc)
    }

    constructor (table: seq<bv32>)
      requires IsTable(table)
      ensures Valid() && View() == map[] && replies == [] && digests == {}
    {
      this.table := table;
      tasks := map[];
      replies := [];
      digests := {};
    }

    /** Registers a task; the result says whether the original would have thrown. */
    method AddTask(e: Event) returns (ok: bool)
      requires Valid()
      modifies this
      ensures Valid() && old(digests) <= digests && fresh(digests - old(digests))
      ensures ok == (Get(old(View()), e.sn) == None && Opens(e))
      ensures ok ==> View() == old(View())[e.sn := Fresh(e)] && replies == old(replies) + [Opened(e.sn)]
      ensures !ok ==> View() == old(View()) && replies == old(replies)
    {
      ok := e.sn !in tasks && Opens(e);
      if ok {
        var digest := new Digest(table);
        tasks := tasks[e.sn := Entry(e.opening.value.crcType, digest)];
        digests := digests + {digest};
        replies := replies + [Opened(e.sn)];
      }
    }

    /** Adds the bytes of one append or flush to a task's digest. */
    method SumChunk(task: Entry, e: Event)
      requires IsTable(task.digest.table) && e.kind != NewTask && e.result.Returned?
      modifies task.digest
      ensures task.digest.crc == Feed(old(task.digest.crc), Chunk(task.crcType, e))
    {
      var digest := task.digest;
      if e.input.Some? && task.crcType == Input {
        digest.Append(e.input.value);
      }
      if e.result.output.Some? && task.crcType == Output {
        digest.Append(e.result.output.value);
      }
    }

    method Delete(sn: nat) returns (task: Entry)
      requires Valid() && sn in tasks
      modifies this`tasks
      ensures Valid() && View() == old(View()) - {sn} && task == old(tasks[sn])
      ensures task.digest in digests && task.digest.table == table
      ensures forall other :: other in tasks ==> tasks[other].digest != task.digest
    {
      task := tasks[sn];
      tasks := tasks - {sn};
    }

    method AppendTo(e: Event)
      requires Valid() && e.sn in tasks && e.kind == Append && e.result.Returned?
      modifies this`replies, digests
      ensures Valid()
      ensures Process(old(View())[e.sn], e).0.Some?
      ensures View() == old(View())[e.sn := Process(old(View())[e.sn], e).0.value]
      ensures replies == old(replies) + [Process(old(View())[e.sn], e).1]
    {
      SumChunk(tasks[e.sn], e);
      replies := replies + [Data(e.sn, e.kind, e.result.output, None)];
    }

    /** The digest of a deleted task takes the last bytes; the tasks left are untouched. */
    method CloseTask(task: Entry, e: Event, ghost was: Task) returns (reply: Reply)
      requires Valid() && task.digest in digests && task.digest.table == table
      requires forall sn :: sn in tasks ==> tasks[sn].digest != task.digest
      requires e.kind == Flush && e.result.Returned?
      requires was == Task(task.crcType, task.digest.crc)
      modifies task.digest
      ensures Valid() && View() == old(View())
      ensures reply == Process(was, e).1
    {
      SumChunk(task, e);
      var crc := None;
      if task.crcType != Neither {
        var sum := task.digest.Get();
        crc := Some(sum);
      }
      reply := Data(e.sn, e.kind, e.result.output, crc);
    }

    method FlushTask(e: Event)
      requires Valid() && e.sn in tasks && e.kind == Flush && e.result.Returned?
      modifies this`tasks, this`replies, digests
      ensures Valid()
      ensures View() == old(View()) - {e.sn}
      ensures replies == old(replies) + [Process(old(View())[e.sn], e).1]
    {
      ghost var was := View()[e.sn];
      var task := Delete(e.sn);
      assert View() == old(View()) - {e.sn};
      var reply := CloseTask(task, e, was);
      assert View() == old(View()) - {e.sn};
      replies := replies + [reply];
    }

    /** The part of append and flush that needs an existing task; false when the codec throws. */
    method RunCodec(e: Event) returns (ok: bool)
      requires Valid() && e.sn in tasks && e.kind != NewTask
      modifies this`tasks, this`replies, digests
      ensures Valid()
      ensures ok == e.result.Returned?
      ensures View() == Put(old(View()), e.sn, Process(old(View())[e.sn], e).0)
      ensures replies == old(replies) + if ok then [Process(old(View())[e.sn], e).1] else []
    {
      ok := e.result.Returned?;
      if !ok {
        var _ := Delete(e.sn);
      } else if e.kind == Append {
        AppendTo(e);
      } else {
        FlushTask(e);
      }
    }

    /** Append and flush; false when the original would have thrown. */
    method ProcessData(e: Event) returns (ok: bool)
      requires Valid() && e.kind != NewTask
      modifies this, digests
      ensures Valid() && old(digests) <= digests && fresh(digests - old(digests))
      ensures View() == Handle(old(View()), e).0
      ensures old(replies) + Handle(old(View()), e).1 == replies + if ok then [] else [Error(e.sn, e.kind)]
    {
      ghost var before := View();
      if e.sn !in tasks {
        // allow creating the codec on the first append
        ok := AddTask(e);
        if !ok {
          assert Put(before, e.sn, None) == before;
          return;
        }
        OpenThenProcess(before, e);
      }
      ok := RunCodec(e);
    }

    /** The handler of a message; false when the original would have thrown. */
    method Dispatch(e: Event) returns (ok: bool)
      requires Valid()
      modifies this, digests
      ensures Valid() && old(digests) <= digests && fresh(digests - old(digests))
      ensures View() == Handle(old(View()), e).0
      ensures old(replies) + Handle(old(View()), e).1 == replies + if ok then [] else [Error(e.sn, e.kind)]
    {
      if e.kind == NewTask {
        ok := AddTask(e);
      } else {
        ok := ProcessData(e);
      }
    }

    /** The message listener: a handler that throws is answered with an error message. */
    method OnMessage(e: Event)
      requires Valid()
      modifies this, digests
      ensures Valid() && old(digests) <= digests && fresh(digests - old(digests))
      ensures View() == Handle(old(View()), e).0
      ensures replies == old(replies) + Handle(old(View()), e).1
    {
      var ok := Dispatch(e);
      if !ok {
        replies := replies + [Error(e.sn, e.kind)];
      }
    }
  }
}
