/** The local log budget of a task (box/gateway/gateway.go:928-964). */
module LogBudget {
  import opened Common
  import opened Spool

  /** What one call of `write` was given. */
  datatype Written = Written(stream: string, contents: Bytes)

  /** What can happen to the spool between two writes does not touch the budget. */
  datatype Event =
    | Wrote(write: Written)
    | Resumed(acceptedThrough: nat)
    | Acknowledged(acceptedThrough: nat)

  function After(events: seq<Event>, budget: int): TaskState {
    if events == [] then NewTask
    else
      var task := After(events[..|events| - 1], budget);
      match events[|events| - 1]
      case Wrote(write) => Spool.Write(task, budget, write.stream, write.contents)
      case Resumed(through) => ResumeAck(task, through)
      case Acknowledged(through) => LogAck(task, through)
  }

  // ----- what may be expected, in terms of the events alone -----

  /** Everything that was written, in order. */
  function Writes(events: seq<Event>): seq<Written> {
    if events == [] then []
    else
      Writes(events[..|events| - 1])
      + match events[|events| - 1]
        case Wrote(write) => [write]
        case _ => []
  }

  /** The highest sequence that any answer of Core acknowledged. */
  function Highest(events: seq<Event>): nat {
    if events == [] then 0
    else
      var earlier := Highest(events[..|events| - 1]);
      match events[|events| - 1]
      case Wrote(_) => earlier
      case Resumed(through) => Max(earlier, through)
      case Acknowledged(through) => Max(earlier, through)
  }

  /** The same as of the last acknowledged batch, which is when the spool lets go of entries. */
  function HighestAtBatch(events: seq<Event>): nat {
    if events == [] then 0
    else if events[|events| - 1].Acknowledged? then Highest(events)
    else HighestAtBatch(events[..|events| - 1])
  }

  /** The bytes of a message that are kept: the first 20,000. */
  function KeptBytes(write: Written): nat {
    Min(|write.contents|, 20_000)
  }

  function Kept(writes: seq<Written>): nat {
    if writes == [] then 0 else Kept(writes[..|writes| - 1]) + KeptBytes(writes[|writes| - 1])
  }

  function KeptAt(writes: seq<Written>, count: nat): nat
    requires count <= |writes|
  {
    Kept(writes[..count])
  }

  /** `count` is the length of the longest prefix of the writes whose kept bytes fit the budget. */
  ghost predicate LongestFit(writes: seq<Written>, budget: int, count: nat) {
    && count <= |writes|
    && forall j :: 0 < j <= |writes| ==> (j <= count <==> KeptAt(writes, j) <= budget)
  }

  /** `entry` is what the write with index `k` becomes. */
  predicate Carries(entry: LogEntry, k: nat, write: Written) {
    && entry.sequence == k + 1
    && entry.stream == write.stream
    && entry.message == write.contents[..KeptBytes(write)]
  }

  /** `entries` is what the budget takes of the writes: as many as fit, each whole up to its limit, in order. */
  ghost predicate Takes(entries: seq<LogEntry>, writes: seq<Written>, budget: int) {
    && LongestFit(writes, budget, |entries|)
    && forall k :: 0 <= k < |entries| ==> Carries(entries[k], k, writes[k])
  }

  /** The counters of a record that took the first `count` of these writes. */
  predicate Counts(task: TaskState, writes: seq<Written>, count: nat)
    requires count <= |writes|
  {
    && task.nextSequence == count + 1
    && task.logBytes == KeptAt(writes, count)
    && (task.logsTruncated <==> count < |writes|)
  }

  // ----- one write -----

  lemma KeptGrows(writes: seq<Written>, write: Written)
    ensures KeptAt(writes + [write], |writes| + 1) == KeptAt(writes, |writes|) + KeptBytes(write)
    ensures forall j: nat :: j <= |writes| ==> KeptAt(writes + [write], j) == KeptAt(writes, j)
  {
    var longer := writes + [write];
    assert longer[..|longer|] == longer && longer[..|writes|] == writes[..|writes|] == writes;
    forall j: nat | j <= |writes|
      ensures KeptAt(longer, j) == KeptAt(writes, j)
    {
      assert longer[..j] == writes[..j];
    }
  }

  lemma FitGrows(writes: seq<Written>, write: Written, budget: int, count: nat)
    requires LongestFit(writes, budget, count)
    ensures LongestFit(writes + [write], budget,
                       if count == |writes| && KeptAt(writes, count) + KeptBytes(write) <= budget then count + 1 else count)
  {
    hide Kept, KeptAt;
    KeptGrows(writes, write);
    if count < |writes| {
      OverBudgetStaysOver(writes, write, budget, count);
    }
  }

  /** Once a message was refused, no later prefix fits. */
  lemma OverBudgetStaysOver(writes: seq<Written>, write: Written, budget: int, count: nat)
    requires LongestFit(writes, budget, count) && count < |writes|
    ensures KeptAt(writes, |writes|) > budget
    ensures KeptAt(writes + [write], |writes| + 1) > budget
  {
    KeptGrows(writes, write);
    hide Kept, KeptAt;
  }

  function EntryOf(task: TaskState, write: Written): LogEntry {
    LogEntry(task.nextSequence, write.stream, write.contents[..KeptBytes(write)])
  }

  /** One write: the record gains the entry and its bytes if they fit, and is marked truncated otherwise. */
  lemma WriteEffect(task: TaskState, budget: int, write: Written)
    ensures
      var next := Spool.Write(task, budget, write.stream, write.contents);
      if !task.logsTruncated && task.logBytes + KeptBytes(write) <= budget then
        && Accepts(task, budget, write.contents)
        && EntryFor(task, write.stream, write.contents) == EntryOf(task, write)
        && next == task.(nextSequence := task.nextSequence + 1, logBytes := task.logBytes + KeptBytes(write),
                         logs := task.logs + [EntryOf(task, write)])
      else !Accepts(task, budget, write.contents) && next == task.(logsTruncated := true)
  {
  }

  predicate Fits(task: TaskState, budget: int, write: Written) {
    !task.logsTruncated && task.logBytes + KeptBytes(write) <= budget
  }

  lemma CountsGrow(task: TaskState, writes: seq<Written>, count: nat, budget: int, write: Written)
    requires LongestFit(writes, budget, count) && Counts(task, writes, count)
    ensures
      var next := Spool.Write(task, budget, write.stream, write.contents);
      var count' := if Fits(task, budget, write) then count + 1 else count;
      && LongestFit(writes + [write], budget, count')
      && Counts(next, writes + [write], count')
      && (Fits(task, budget, write) ==> count == |writes|)
  {
    WriteEffect(task, budget, write);
    assert count <= |writes|;
    hide Spool.Write, Accepts, EntryFor, EntryOf, CapChunk, Kept, KeptAt, LongestFit, KeptBytes;
    KeptGrows(writes, write);
    FitGrows(writes, write, budget, count);
  }

  /** The entries taken so far, and the one that carries this write if it fits. */
  lemma WriteTakes(task: TaskState, entries: seq<LogEntry>, writes: seq<Written>, budget: int, write: Written)
    requires Takes(entries, writes, budget) && Counts(task, writes, |entries|)
    ensures
      var next := Spool.Write(task, budget, write.stream, write.contents);
      var entries' := if Fits(task, budget, write) then entries + [EntryOf(task, write)] else entries;
      Takes(entries', writes + [write], budget) && Counts(next, writes + [write], |entries'|)
  {
    CountsGrow(task, writes, |entries|, budget, write);
    assert task.nextSequence == |entries| + 1;
    hide Spool.Write, KeptAt, LongestFit, KeptBytes, Counts, Fits;
  }

  // ----- any sequence of writes and acknowledgements -----

  /** The spool holds the latest of the `count` entries; it let go only of what a batch answer acknowledged. */
  ghost predicate SpoolKeeps(task: TaskState, writes: seq<Written>, count: nat, events: seq<Event>)
    requires count <= |writes|
  {
    && |task.logs| <= count
    && (forall j :: 0 <= j < |task.logs| ==>
          Carries(task.logs[j], count - |task.logs| + j, writes[count - |task.logs| + j]))
    && task.acknowledged == Highest(events)
    && count - |task.logs| <= HighestAtBatch(events) <= Highest(events)
    && (task.truncationAcknowledged ==> task.logsTruncated)
    && (events != [] && events[|events| - 1].Acknowledged? ==>
          && count - |task.logs| == Min(count, Highest(events))
          && task.truncationAcknowledged == task.logsTruncated)
  }

  ghost predicate BudgetKept(task: TaskState, events: seq<Event>, budget: int) {
    var writes, count := Writes(events), task.nextSequence - 1;
    && 0 <= count <= |writes|
    && LongestFit(writes, budget, count)
    && Counts(task, writes, count)
    && SpoolKeeps(task, writes, count, events)
  }

  /** On consecutive sequences the acknowledged entries are a prefix. */
  lemma {:induction false} AboveDropsPrefix(logs: seq<LogEntry>, first: nat, acknowledged: nat)
    requires forall j :: 0 <= j < |logs| ==> logs[j].sequence == first + j
    ensures Above(logs, acknowledged) == logs[Min(|logs|, Max(0, acknowledged + 1 - first))..]
  {
    if logs == [] {
    } else {
      var cut, rest := Min(|logs|, Max(0, acknowledged + 1 - first)), logs[1..];
      AboveDropsPrefix(rest, first + 1, acknowledged);
      if logs[0].sequence > acknowledged {
        assert cut == 0 && rest[0..] == rest;
        assert logs == [logs[0]] + rest;
      } else {
        assert cut > 0 && rest[cut - 1..] == logs[cut..];
      }
    }
  }

  lemma OneMore(events: seq<Event>, event: Event)
    ensures
      var more := events + [event];
      && more[|more| - 1] == event && more[..|more| - 1] == events
      && Writes(more) == (if event.Wrote? then Writes(events) + [event.write] else Writes(events))
      && Highest(more) == (if event.Wrote? then Highest(events) else Max(Highest(events), event.acceptedThrough))
      && HighestAtBatch(more) == (if event.Acknowledged? then Highest(more) else HighestAtBatch(events))
  {
    assert (events + [event])[..|events|] == events;
  }

  lemma AckDrops(task: TaskState, first: nat, through: nat)
    requires forall j :: 0 <= j < |task.logs| ==> task.logs[j].sequence == first + j
    ensures
      var next, acknowledged := LogAck(task, through), Max(task.acknowledged, through);
      && next == task.(acknowledged := acknowledged, logs := next.logs,
                       truncationAcknowledged := task.truncationAcknowledged || task.logsTruncated)
      && next.logs == task.logs[Min(|task.logs|, Max(0, acknowledged + 1 - first))..]
  {
    AboveDropsPrefix(task.logs, first, Max(task.acknowledged, through));
    hide Above;
  }

  lemma TailCarries(logs: seq<LogEntry>, cut: nat, writes: seq<Written>, from: nat)
    requires cut <= |logs| && from + |logs| <= |writes|
    requires forall j :: 0 <= j < |logs| ==> Carries(logs[j], from + j, writes[from + j])
    ensures forall j :: 0 <= j < |logs[cut..]| ==> Carries(logs[cut..][j], from + cut + j, writes[from + cut + j])
  {
    hide Carries;
    forall j | 0 <= j < |logs[cut..]|
      ensures Carries(logs[cut..][j], from + cut + j, writes[from + cut + j])
    {
      assert logs[cut..][j] == logs[cut + j];
    }
  }

  lemma SpoolTrims(task: TaskState, writes: seq<Written>, count: nat, events: seq<Event>, through: nat)
    requires count <= |writes| && SpoolKeeps(task, writes, count, events)
    ensures SpoolKeeps(LogAck(task, through), writes, count, events + [Acknowledged(through)])
  {
    OneMore(events, Acknowledged(through));
    hide Writes, Highest, HighestAtBatch, LogAck;
    var first := count + 1 - |task.logs|;
    SequencesFrom(task, writes, count, events);
    AckDrops(task, first, through);
    hide Carries;
    TailCarries(task.logs, Min(|task.logs|, Max(0, Max(task.acknowledged, through) + 1 - first)), writes, first - 1);
  }

  lemma SequencesFrom(task: TaskState, writes: seq<Written>, count: nat, events: seq<Event>)
    requires count <= |writes| && SpoolKeeps(task, writes, count, events)
    ensures forall j :: 0 <= j < |task.logs| ==> task.logs[j].sequence == count + 1 - |task.logs| + j
  {
    hide Highest, HighestAtBatch;
    forall j | 0 <= j < |task.logs|
      ensures task.logs[j].sequence == count + 1 - |task.logs| + j
    {
      assert Carries(task.logs[j], count - |task.logs| + j, writes[count - |task.logs| + j]);
    }
  }

  lemma AcknowledgingKeeps(task: TaskState, events: seq<Event>, budget: int, through: nat)
    requires BudgetKept(task, events, budget)
    ensures BudgetKept(LogAck(task, through), events + [Acknowledged(through)], budget)
  {
    OneMore(events, Acknowledged(through));
    SpoolTrims(task, Writes(events), task.nextSequence - 1, events, through);
    hide Writes, SpoolKeeps, LongestFit, KeptAt;
  }

  lemma ResumingKeeps(task: TaskState, events: seq<Event>, budget: int, through: nat)
    requires BudgetKept(task, events, budget)
    ensures BudgetKept(ResumeAck(task, through), events + [Resumed(through)], budget)
  {
    OneMore(events, Resumed(through));
    hide LongestFit, KeptAt, Writes, Highest, HighestAtBatch, KeptBytes;
  }

  lemma SpoolGrows(task: TaskState, writes: seq<Written>, count: nat, events: seq<Event>, budget: int, write: Written)
    requires count <= |writes| && SpoolKeeps(task, writes, count, events) && task.nextSequence == count + 1
    requires Fits(task, budget, write) ==> count == |writes|
    ensures
      var next := Spool.Write(task, budget, write.stream, write.contents);
      SpoolKeeps(next, writes + [write], if Fits(task, budget, write) then count + 1 else count, events + [Wrote(write)])
  {
    OneMore(events, Wrote(write));
    WriteEffect(task, budget, write);
    hide Writes, Highest, HighestAtBatch, Spool.Write, Accepts, EntryFor, CapChunk, KeptBytes;
  }

  lemma WritingKeeps(task: TaskState, events: seq<Event>, budget: int, write: Written)
    requires BudgetKept(task, events, budget)
    ensures BudgetKept(Spool.Write(task, budget, write.stream, write.contents), events + [Wrote(write)], budget)
  {
    OneMore(events, Wrote(write));
    CountsGrow(task, Writes(events), task.nextSequence - 1, budget, write);
    SpoolGrows(task, Writes(events), task.nextSequence - 1, events, budget, write);
    hide LongestFit, KeptAt, Writes, SpoolKeeps, Spool.Write, Fits;
  }

  /**
   For any sequence of writes, with acknowledgements anywhere between them: exactly the
   longest prefix of the writes whose kept bytes fit the budget was taken, and numbering and
   `LogBytes` stand still from the first refused write on. The entry taken as number k + 1
   carries stream and bytes of the write with index k, and the spool holds the latest of
   these entries, all but those that a batch answer acknowledged.
   */
  lemma {:induction false} AcceptedIsLongestPrefix(events: seq<Event>, budget: int)
    ensures BudgetKept(After(events, budget), events, budget)
  {
    if events == [] {
    } else {
      var before, last := events[..|events| - 1], events[|events| - 1];
      var task := After(before, budget);
      AcceptedIsLongestPrefix(before, budget);
      assert before + [last] == events;
      hide BudgetKept, Write, LogAck, ResumeAck;
      match last
      case Wrote(write) => WritingKeeps(task, before, budget, write);
      case Resumed(through) => ResumingKeeps(task, before, budget, through);
      case Acknowledged(through) => AcknowledgingKeeps(task, before, budget, through);
    }
  }
}
