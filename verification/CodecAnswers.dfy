/**
 What the codec worker answers, told from the messages alone: which of them find a task, what each is
 answered, and which bytes a checksum is of.
 */
module CodecAnswers {
  import opened Options
  import opened Crc32
  import opened CodecWorker

  // ----- the messages for one serial number, on their own -----

  /** The message names a codec that can be constructed. */
  predicate Names(e: Event) {
    e.opening.Some? && e.opening.value.constructs
  }

  /** A task is open after these messages, none having been open before. */
  predicate Open(own: seq<Event>) {
    own != [] &&
    var before, e := own[..|own| - 1], own[|own| - 1];
    match e.kind
    case NewTask => Open(before) || Names(e)
    case Append => (Open(before) || Names(e)) && e.result.Returned?
    case Flush => false
  }

  /** The messages since the one that opened the task, if one is open. */
  function Life(own: seq<Event>): (life: seq<Event>)
    ensures life != [] <==> Open(own)
    ensures Open(own) ==> Names(life[0])
  {
    if !Open(own) then []
    else Life(own[..|own| - 1]) + [own[|own| - 1]]
  }

  /** The bytes that appends and flushes brought. */
  function Inputs(es: seq<Event>): Bytes {
    if es == [] then []
    else
      var e := es[|es| - 1];
      Inputs(es[..|es| - 1]) + if e.kind != NewTask && e.input.Some? then e.input.value else []
  }

  /** The bytes that the codec returned for them. */
  function Outputs(es: seq<Event>): Bytes {
    if es == [] then []
    else
      var e := es[|es| - 1];
      Outputs(es[..|es| - 1])
      + if e.kind != NewTask && e.result.Returned? && e.result.output.Some? then e.result.output.value else []
  }

  /** The checksum a task ends with, as the message that opened it asked. */
  function Sum(life: seq<Event>): Option<bv32>
    requires life != [] && Names(life[0])
  {
    match life[0].opening.value.crcType
    case Neither => None
    case Input => Some(Checksum(Inputs(life)))
    case Output => Some(Checksum(Outputs(life)))
  }

  /** What a message is answered after others for the same number. */
  function Answer(own: seq<Event>, e: Event): seq<Reply> {
    if e.kind == NewTask then
      [if !Open(own) && Names(e) then Opened(e.sn) else Error(e.sn, NewTask)]
    else if !Open(own) && !Names(e) then
      [Error(e.sn, e.kind)]
    else
      (if Open(own) then [] else [Opened(e.sn)])
      + [if e.result.Threw? then Error(e.sn, e.kind)
         else if e.kind == Append then Data(e.sn, Append, e.result.output, None)
         else Data(e.sn, Flush, e.result.output, Sum(Life(own) + [e]))]
  }

  function Answers(own: seq<Event>): seq<Reply> {
    if own == [] then [] else Answers(own[..|own| - 1]) + Answer(own[..|own| - 1], own[|own| - 1])
  }

  // ----- the worker answers so -----

  /** The task that these messages to it leave. */
  function TaskOf(life: seq<Event>): Task
    requires life != [] && Names(life[0])
  {
    Task(life[0].opening.value.crcType, Feed(INITIAL, SummedIn(life[0].opening.value.crcType, life)))
  }

  function TaskAfter(own: seq<Event>): Option<Task> {
    if Life(own) == [] then None else Some(TaskOf(Life(own)))
  }

  function SummedIn(crcType: CrcType, life: seq<Event>): Bytes {
    match crcType
    case Neither => []
    case Input => Inputs(life)
    case Output => Outputs(life)
  }

  lemma SummedNext(crcType: CrcType, life: seq<Event>, e: Event)
    ensures SummedIn(crcType, life + [e]) == SummedIn(crcType, life) + Chunk(crcType, e)
  {
    assert (life + [e])[..|life|] == life;
  }

  lemma LifeNext(own: seq<Event>, e: Event)
    ensures Open(own + [e]) == match e.kind {
              case NewTask => Open(own) || Names(e)
              case Append => (Open(own) || Names(e)) && e.result.Returned?
              case Flush => false }
    ensures Life(own + [e]) == if Open(own + [e]) then Life(own) + [e] else []
  {
    assert (own + [e])[..|own|] == own;
  }

  lemma TaskNext(life: seq<Event>, e: Event)
    requires life != [] && Names(life[0])
    ensures var t := TaskOf(life); TaskOf(life + [e]) == t.(crc := Feed(t.crc, Chunk(t.crcType, e)))
  {
    var crcType := life[0].opening.value.crcType;
    assert (life + [e])[0] == life[0];
    SummedNext(crcType, life, e);
    FeedAppend(INITIAL, SummedIn(crcType, life), Chunk(crcType, e));
  }

  lemma TaskFirst(e: Event)
    requires Names(e)
    ensures TaskOf([e]) == Fresh(e).(crc := Feed(INITIAL, Chunk(e.opening.value.crcType, e)))
  {
    var crcType := e.opening.value.crcType;
    SummedNext(crcType, [], e);
    assert [] + [e] == [e] && [] + Chunk(crcType, e) == Chunk(crcType, e) && SummedIn(crcType, []) == [];
  }

  /** An append or flush on a task, which the message leaves at this life. */
  lemma ProcessAnswers(task: Task, life: seq<Event>, e: Event)
    requires e.kind != NewTask && life != [] && Names(life[0])
    requires TaskOf(life) == task.(crc := Feed(task.crc, Chunk(task.crcType, e)))
    ensures Process(task, e)
         == if e.result.Threw? then (None, Error(e.sn, e.kind))
            else if e.kind == Append then (Some(TaskOf(life)), Data(e.sn, Append, e.result.output, None))
            else (None, Data(e.sn, Flush, e.result.output, Sum(life)))
  {
  }

  lemma OpenAnswers(own: seq<Event>, e: Event)
    requires e.kind != NewTask && Open(own)
    ensures React(TaskAfter(own), e) == (TaskAfter(own + [e]), Answer(own, e))
  {
    LifeNext(own, e);
    TaskNext(Life(own), e);
    ProcessAnswers(TaskOf(Life(own)), Life(own) + [e], e);
    assert Answer(own, e) == [Process(TaskOf(Life(own)), e).1];
  }

  lemma FirstAnswers(own: seq<Event>, e: Event)
    requires e.kind != NewTask && !Open(own)
    ensures React(TaskAfter(own), e) == (TaskAfter(own + [e]), Answer(own, e))
  {
    LifeNext(own, e);
    if Names(e) {
      assert Life(own) + [e] == [e];
      TaskFirst(e);
      ProcessAnswers(Fresh(e), [e], e);
      assert Answer(own, e) == [Opened(e.sn), Process(Fresh(e), e).1];
    }
  }

  lemma NewTaskAnswers(own: seq<Event>, e: Event)
    requires e.kind == NewTask
    ensures React(TaskAfter(own), e) == (TaskAfter(own + [e]), Answer(own, e))
  {
    LifeNext(own, e);
    if Open(own) {
      TaskNext(Life(own), e);
    } else if Names(e) {
      assert Life(own) + [e] == [e];
      TaskFirst(e);
    }
  }

  lemma ReactAnswers(own: seq<Event>, e: Event)
    ensures React(TaskAfter(own), e) == (TaskAfter(own + [e]), Answer(own, e))
  {
    if e.kind == NewTask {
      NewTaskAnswers(own, e);
    } else if Open(own) {
      OpenAnswers(own, e);
    } else {
      FirstAnswers(own, e);
    }
  }

  lemma {:induction false} RunLast(st: State, es: seq<Event>, e: Event)
    ensures var (st', replies) := Run(st, es);
            Run(st, es + [e]) == (Handle(st', e).0, replies + Handle(st', e).1)
    decreases |es|
  {
    var all := es + [e];
    if es == [] {
      assert all[1..] == [];
      assert Handle(st, e).1 + [] == Handle(st, e).1 && [] + Handle(st, e).1 == Handle(st, e).1;
    } else {
      assert all[0] == es[0] && all[1..] == es[1..] + [e];
      RunLast(Handle(st, es[0]).0, es[1..], e);
      RunCons(st, es);
      RunCons(st, all);
      var head, more := Handle(st, es[0]).1, Run(Handle(st, es[0]).0, es[1..]).1;
      var last := Handle(Run(st, es).0, e).1;
      assert head + (more + last) == (head + more) + last;
    }
  }

  lemma {:induction false} AnsweredAlone(st: State, own: seq<Event>, sn: nat)
    requires sn !in st && forall i :: 0 <= i < |own| ==> own[i].sn == sn
    ensures Get(Run(st, own).0, sn) == TaskAfter(own) && Run(st, own).1 == Answers(own)
    decreases |own|
  {
    if own != [] {
      var before, e := own[..|own| - 1], own[|own| - 1];
      assert own == before + [e];
      AnsweredAlone(st, before, sn);
      RunLast(st, before, e);
      ReactAnswers(before, e);
    }
  }

  lemma {:induction false} OwnEvents(es: seq<Event>, sn: nat)
    ensures forall i :: 0 <= i < |EventsOf(es, sn)| ==> EventsOf(es, sn)[i].sn == sn
  {
    if es != [] {
      OwnEvents(es[1..], sn);
    }
  }

  /**
   In any interleaving, every message for a serial number is answered as told from the messages for that
   number alone, in order; and a task is open in the end exactly if they leave one open.
   */
  lemma AnsweredExactly(st: State, es: seq<Event>, sn: nat)
    requires sn !in st
    ensures RepliesOf(Run(st, es).1, sn) == Answers(EventsOf(es, sn))
    ensures sn in Run(st, es).0 <==> Open(EventsOf(es, sn))
  {
    NonInterference(st, st, es, sn);
    OwnEvents(es, sn);
    AnsweredAlone(st, EventsOf(es, sn), sn);
  }

  // ----- what comes out of the codec -----

  /** The outputs that data replies carry. */
  function Carried(rs: seq<Reply>): seq<Option<Bytes>> {
    if rs == [] then []
    else
      var r := rs[|rs| - 1];
      Carried(rs[..|rs| - 1]) + if r.Data? then [r.output] else []
  }

  /** What the codec returned for the messages that reached one. */
  function Returns(own: seq<Event>): seq<Option<Bytes>> {
    if own == [] then []
    else
      var before, e := own[..|own| - 1], own[|own| - 1];
      Returns(before)
      + if e.kind != NewTask && (Open(before) || Names(e)) && e.result.Returned? then [e.result.output] else []
  }

  lemma CarriedNext(rs: seq<Reply>, r: Reply)
    ensures Carried(rs + [r]) == Carried(rs) + if r.Data? then [r.output] else []
  {
    assert (rs + [r])[..|rs|] == rs;
  }

  lemma CarriedAnswer(rs: seq<Reply>, own: seq<Event>, e: Event)
    ensures Carried(rs + Answer(own, e))
            == Carried(rs) + if e.kind != NewTask && (Open(own) || Names(e)) && e.result.Returned?
                             then [e.result.output] else []
  {
    var a := Answer(own, e);
    if |a| == 2 {
      assert rs + a == (rs + [a[0]]) + [a[1]];
      CarriedNext(rs, a[0]);
      CarriedNext(rs + [a[0]], a[1]);
    } else {
      assert rs + a == rs + [a[0]];
      CarriedNext(rs, a[0]);
    }
  }

  lemma {:induction false} AnswersCarry(own: seq<Event>)
    ensures Carried(Answers(own)) == Returns(own)
  {
    if own != [] {
      AnswersCarry(own[..|own| - 1]);
      CarriedAnswer(Answers(own[..|own| - 1]), own[..|own| - 1], own[|own| - 1]);
    }
  }

  /** Nothing the codec returned is lost, doubled, or out of order on its way back. */
  lemma OutputsInOrder(st: State, es: seq<Event>, sn: nat)
    requires sn !in st
    ensures Carried(RepliesOf(Run(st, es).1, sn)) == Returns(EventsOf(es, sn))
  {
    AnsweredExactly(st, es, sn);
    AnswersCarry(EventsOf(es, sn));
  }
}
