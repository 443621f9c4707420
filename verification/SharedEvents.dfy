/** The event file while several invocations of a group use it: an update reads it in one turn
    and writes it in a later one, an append does both in one. */
module SharedEvents {
  import opened Sequences
  import opened SelfRevision

  /** An event under its identifier, which counts the events ever made. */
  datatype Line = Line(id: nat, event: Event)

  datatype Step =
    | Append(task: nat, trigger: Trigger)
    | Read(task: nat)
    | Write(task: nat, id: nat, status: Status)
    | GiveUp(task: nat)

  /** The file, the number of events made, and what each update under way has read. */
  datatype Shared = Shared(file: seq<Line>, made: nat, pending: map<nat, seq<Line>>)

  ghost predicate Has(file: seq<Line>, id: nat) {
    exists k :: 0 <= k < |file| && file[k].id == id
  }

  function MarkLine(file: seq<Line>, id: nat, status: Status): seq<Line> {
    Map(file, (line: Line) => if line.id == id then line.(event := line.event.(status := status)) else line)
  }

  /** A task makes one update or append after another. An update that finds its event writes;
      one that does not, or cannot read or write the file, gives up. */
  ghost predicate Enabled(s: Shared, step: Step) {
    match step
    case Append(t, _) => t !in s.pending
    case Read(t) => t !in s.pending
    case Write(t, id, _) => t in s.pending && Has(s.pending[t], id)
    case GiveUp(t) => t in s.pending
  }

  function Apply(s: Shared, step: Step): Shared {
    match step
    case Append(_, trigger) => s.(file := s.file + [Line(s.made, Event(trigger, Requested))], made := s.made + 1)
    case Read(t) => s.(pending := s.pending[t := s.file])
    case Write(t, id, status) =>
      if t in s.pending then s.(file := MarkLine(s.pending[t], id, status), pending := s.pending - {t}) else s
    case GiveUp(t) => s.(pending := s.pending - {t})
  }

  /** The state after the first `n` steps. */
  function At(s: Shared, steps: seq<Step>, n: nat): Shared
    requires n <= |steps|
  {
    if n == 0 then s else Apply(At(s, steps, n - 1), steps[n - 1])
  }

  function After(s: Shared, steps: seq<Step>): Shared { At(s, steps, |steps|) }

  ghost predicate IsRun(s: Shared, steps: seq<Step>) {
    forall n :: 0 <= n < |steps| ==> Enabled(At(s, steps, n), steps[n])
  }

  /** No update is under way, and the file has every event made so far, each once and in order. */
  ghost predicate Quiet(s: Shared) {
    s.pending == map[] && s.made == |s.file| && forall k :: 0 <= k < |s.file| ==> s.file[k].id == k
  }

  // ----- Windows

  /** Step `i` is the read and step `j` the write of one update. */
  ghost predicate Window(steps: seq<Step>, i: nat, j: nat) {
    && i < j < |steps| && steps[j].Write? && steps[i] == Read(steps[j].task)
    && forall k :: i < k < j ==> steps[k].task != steps[j].task
  }

  lemma AtStart(s: Shared, steps: seq<Step>)
    ensures At(s, steps, 0) == s
  {
  }

  lemma AtNext(s: Shared, steps: seq<Step>, n: nat)
    requires n < |steps|
    ensures At(s, steps, n + 1) == Apply(At(s, steps, n), steps[n])
    ensures IsRun(s, steps) ==> Enabled(At(s, steps, n), steps[n])
  {
    if IsRun(s, steps) {
      assert Enabled(At(s, steps, n), steps[n]);
    }
  }

  /** What an update under way has read stays until its task does something. */
  lemma StepPends(s: Shared, step: Step, t: nat)
    requires Enabled(s, step) && t in Apply(s, step).pending
    ensures if step == Read(t) then Apply(s, step).pending[t] == s.file
            else step.task != t && t in s.pending && Apply(s, step).pending[t] == s.pending[t]
  {
  }

  /** A task with an update under way has read the file and done nothing since. */
  lemma {:induction false} PendingRead(s: Shared, steps: seq<Step>, n: nat, t: nat) returns (i: nat)
    requires IsRun(s, steps) && Quiet(s) && n <= |steps| && t in At(s, steps, n).pending
    ensures i < n && steps[i] == Read(t) && (forall k :: i < k < n ==> steps[k].task != t)
    ensures At(s, steps, n).pending[t] == At(s, steps, i).file
  {
    hide At, IsRun, Apply, Enabled;
    AtStart(s, steps);
    AtNext(s, steps, n - 1);
    StepPends(At(s, steps, n - 1), steps[n - 1], t);
    if steps[n - 1] == Read(t) {
      i := n - 1;
    } else {
      i := PendingRead(s, steps, n - 1, t);
    }
  }

  lemma WriteHasWindow(s: Shared, steps: seq<Step>, j: nat) returns (i: nat)
    requires IsRun(s, steps) && Quiet(s) && j < |steps| && steps[j].Write?
    ensures i < j && Window(steps, i, j)
    ensures At(s, steps, j + 1).file == MarkLine(At(s, steps, i).file, steps[j].id, steps[j].status)
  {
    hide At, IsRun, MarkLine, Has;
    AtNext(s, steps, j);
    i := PendingRead(s, steps, j, steps[j].task);
  }

  lemma OneWindow(steps: seq<Step>, i: nat, k: nat, j: nat)
    requires Window(steps, i, j) && Window(steps, k, j)
    ensures i == k
  {
  }

  lemma WindowIsRead(s: Shared, steps: seq<Step>, i: nat, j: nat)
    requires IsRun(s, steps) && Quiet(s) && Window(steps, i, j)
    ensures At(s, steps, j + 1).file == MarkLine(At(s, steps, i).file, steps[j].id, steps[j].status)
  {
    hide At, IsRun, MarkLine;
    var k := WriteHasWindow(s, steps, j);
    OneWindow(steps, i, k, j);
  }

  // ----- Lost events

  ghost predicate Complete(s: Shared) {
    forall id :: 0 <= id < s.made ==> Has(s.file, id)
  }

  ghost predicate AppendInside(steps: seq<Step>, i: nat, j: nat) {
    exists k :: i < k < j < |steps| && steps[k].Append?
  }

  lemma MarkKeepsLines(file: seq<Line>, id: nat, status: Status)
    ensures forall k :: Has(MarkLine(file, id, status), k) <==> Has(file, k)
  {
    var marked := MarkLine(file, id, status);
    forall k
      ensures Has(marked, k) <==> Has(file, k)
    {
      if Has(file, k) {
        var p :| 0 <= p < |file| && file[p].id == k;
        assert marked[p].id == k;
      }
      if Has(marked, k) {
        var p :| 0 <= p < |marked| && marked[p].id == k;
        assert file[p].id == k;
      }
    }
  }

  /** Events are never unmade, and only an append makes one. */
  lemma {:induction false} MadeGrows(s: Shared, steps: seq<Step>, i: nat, j: nat)
    requires i <= j <= |steps|
    ensures At(s, steps, i).made <= At(s, steps, j).made
    ensures (forall k :: i <= k < j ==> !steps[k].Append?) ==> At(s, steps, i).made == At(s, steps, j).made
    decreases j
  {
    hide At, IsRun;
    if i < j {
      AtNext(s, steps, j - 1);
      MadeGrows(s, steps, i, j - 1);
    }
  }

  lemma AppendedLine(s: Shared, task: nat, trigger: Trigger, id: nat)
    requires Has(Apply(s, Append(task, trigger)).file, id) && id != s.made
    ensures Has(s.file, id)
  {
    var file := Apply(s, Append(task, trigger)).file;
    var p :| 0 <= p < |file| && file[p].id == id;
    assert s.file[p].id == id;
  }

  lemma StartsMade(s: Shared, id: nat)
    requires Quiet(s) && Has(s.file, id)
    ensures id < s.made
  {
  }

  /** The file never holds an event that has not been made. */
  lemma {:induction false} LinesAreMade(s: Shared, steps: seq<Step>, n: nat, id: nat)
    requires IsRun(s, steps) && Quiet(s) && n <= |steps| && Has(At(s, steps, n).file, id)
    ensures id < At(s, steps, n).made
    decreases n
  {
    hide At, IsRun, Quiet, Has, MarkLine;
    if n == 0 {
      AtStart(s, steps);
      StartsMade(s, id);
    } else {
      AtNext(s, steps, n - 1);
      var before := At(s, steps, n - 1);
      match steps[n - 1] {
        case Append(t, trigger) =>
          if id != before.made {
            AppendedLine(before, t, trigger, id);
            LinesAreMade(s, steps, n - 1, id);
          }
        case Write(_, marked, status) =>
          var i := WriteHasWindow(s, steps, n - 1);
          MarkKeepsLines(At(s, steps, i).file, marked, status);
          LinesAreMade(s, steps, i, id);
          MadeGrows(s, steps, i, n);
        case _ => LinesAreMade(s, steps, n - 1, id);
      }
    }
  }

  lemma AppendStaysComplete(s: Shared, task: nat, trigger: Trigger)
    requires Complete(s)
    ensures Complete(Apply(s, Append(task, trigger)))
  {
    var after := Apply(s, Append(task, trigger));
    assert after.file[|s.file|].id == s.made;
    forall id | 0 <= id < s.made
      ensures Has(after.file, id)
    {
      assert Has(s.file, id);
      var p :| 0 <= p < |s.file| && s.file[p].id == id;
      assert after.file[p].id == id;
    }
  }

  lemma MarkStaysComplete(read: Shared, written: Shared, id: nat, status: Status)
    requires Complete(read) && written.file == MarkLine(read.file, id, status) && written.made == read.made
    ensures Complete(written)
  {
    MarkKeepsLines(read.file, id, status);
  }

  lemma WindowHasNoAppend(steps: seq<Step>, i: nat, j: nat)
    requires Window(steps, i, j) && !AppendInside(steps, i, j)
    ensures forall k :: i <= k <= j ==> !steps[k].Append?
  {
  }

  lemma {:induction false} StaysComplete(s: Shared, steps: seq<Step>, n: nat)
    requires IsRun(s, steps) && Quiet(s) && n <= |steps|
    requires forall i: nat, j: nat :: Window(steps, i, j) ==> !AppendInside(steps, i, j)
    ensures Complete(At(s, steps, n))
    decreases n
  {
    hide At, IsRun, Has, MarkLine, AppendInside, Window, Quiet, Complete;
    if n == 0 {
      AtStart(s, steps);
      StartsComplete(s);
    } else {
      AtNext(s, steps, n - 1);
      StaysComplete(s, steps, n - 1);
      var before := At(s, steps, n - 1);
      match steps[n - 1] {
        case Append(t, trigger) => AppendStaysComplete(before, t, trigger);
        case Write(_, marked, status) =>
          var i := WriteHasWindow(s, steps, n - 1);
          StaysComplete(s, steps, i);
          WindowHasNoAppend(steps, i, n - 1);
          MadeGrows(s, steps, i, n);
          MarkStaysComplete(At(s, steps, i), At(s, steps, n), marked, status);
        case Read(_) => SameLinesComplete(before, At(s, steps, n));
        case GiveUp(_) => SameLinesComplete(before, At(s, steps, n));
      }
    }
  }

  lemma StartsComplete(s: Shared)
    requires Quiet(s)
    ensures Complete(s)
  {
    forall id | 0 <= id < s.made
      ensures Has(s.file, id)
    {
      assert s.file[id].id == id;
    }
  }

  lemma SameLinesComplete(before: Shared, after: Shared)
    requires Complete(before) && after.file == before.file && after.made == before.made
    ensures Complete(after)
  {
  }

  lemma AppendInsideLoses(s: Shared, steps: seq<Step>, i: nat, j: nat, k: nat)
    requires IsRun(s, steps) && Quiet(s) && Window(steps, i, j) && i < k < j && steps[k].Append?
    ensures var id, after := At(s, steps, k).made, At(s, steps, j + 1);
            id < after.made && !Has(after.file, id)
  {
    hide At, IsRun, Quiet, Has, MarkLine;
    AtNext(s, steps, k);
    var id := At(s, steps, k).made;
    MadeGrows(s, steps, k + 1, j + 1);
    MadeGrows(s, steps, i, k);
    WindowIsRead(s, steps, i, j);
    MarkKeepsLines(At(s, steps, i).file, steps[j].id, steps[j].status);
    if Has(At(s, steps, i).file, id) {
      LinesAreMade(s, steps, i, id);
    }
  }

  /** In any interleaving, the file has every event made at every moment if and only if no
      event is appended between the read and the write of an update. */
  lemma NothingLostIff(s: Shared, steps: seq<Step>)
    requires IsRun(s, steps) && Quiet(s)
    ensures (forall n :: 0 <= n <= |steps| ==> Complete(At(s, steps, n))) <==>
            (forall i: nat, j: nat :: Window(steps, i, j) ==> !AppendInside(steps, i, j))
  {
    if forall i: nat, j: nat :: Window(steps, i, j) ==> !AppendInside(steps, i, j) {
      forall n | 0 <= n <= |steps|
        ensures Complete(At(s, steps, n))
      {
        StaysComplete(s, steps, n);
      }
    } else {
      var i: nat, j: nat :| Window(steps, i, j) && AppendInside(steps, i, j);
      var k: nat :| i < k < j && steps[k].Append?;
      AppendInsideLoses(s, steps, i, j, k);
      assert !Complete(At(s, steps, j + 1));
    }
  }

  /** A group can lose an event so: one invocation has read the file to mark its event, another
      one appends, and the first one writes what it has read. */
  lemma OverlapLosesEvent(trigger: Trigger)
    ensures var s, steps := Shared([Line(0, Event(trigger, Requested))], 1, map[]),
                            [Read(1), Append(2, trigger), Write(1, 0, Applied)];
            && Quiet(s) && IsRun(s, steps)
            && After(s, steps).made == 2 && !Has(After(s, steps).file, 1)
  {
    var s, steps := Shared([Line(0, Event(trigger, Requested))], 1, map[]),
                    [Read(1), Append(2, trigger), Write(1, 0, Applied)];
    hide At;
    AtStart(s, steps);
    AtNext(s, steps, 0);
    AtNext(s, steps, 1);
    AtNext(s, steps, 2);
    assert s.file[0].id == 0;
    assert Has(s.file, 0);
    MarkKeepsLines(s.file, 0, Applied);
  }

  // ----- Updates that do not overlap

  /** The file as the ledger of one invocation after another keeps it. */
  function AtomicAt(f: EventFile, steps: seq<Step>, n: nat): EventFile
    requires n <= |steps|
  {
    if n == 0 then f
    else
      var before := AtomicAt(f, steps, n - 1);
      match steps[n - 1]
      case Append(_, trigger) => Appended(before, trigger, true)
      case Write(_, id, status) => Marked(before, id, status, true)
      case _ => before
  }

  function Atomic(f: EventFile, steps: seq<Step>): EventFile { AtomicAt(f, steps, |steps|) }

  function Numbered(f: EventFile): seq<Line> {
    seq(|f.events|, k requires 0 <= k < |f.events| => Line(f.lost + k, f.events[k]))
  }

  predicate Changes(step: Step) { step.Append? || step.Write? }

  /** The file does not change between the read and the write of any update. */
  ghost predicate Apart(steps: seq<Step>) {
    forall i: nat, j: nat, k: nat :: Window(steps, i, j) && i < k < j ==> !Changes(steps[k])
  }

  lemma {:induction false} Unchanged(s: Shared, f: EventFile, steps: seq<Step>, i: nat, j: nat)
    requires i <= j <= |steps| && forall k :: i <= k < j ==> !Changes(steps[k])
    ensures At(s, steps, i).file == At(s, steps, j).file && AtomicAt(f, steps, i) == AtomicAt(f, steps, j)
    decreases j
  {
    hide At, IsRun;
    if i < j {
      AtNext(s, steps, j - 1);
      Unchanged(s, f, steps, i, j - 1);
    }
  }

  lemma MarkIsMarked(f: EventFile, id: nat, status: Status)
    ensures MarkLine(Numbered(f), id, status) == Numbered(Marked(f, id, status, true))
  {
  }

  lemma MarkMakesNone(f: EventFile, id: nat, status: Status)
    ensures NextId(Marked(f, id, status, true)) == NextId(f)
  {
  }

  lemma AppendIsAppended(f: EventFile, trigger: Trigger)
    ensures Numbered(Appended(f, trigger, true)) == Numbered(f) + [Line(NextId(f), Event(trigger, Requested))]
    ensures NextId(Appended(f, trigger, true)) == NextId(f) + 1
  {
  }

  lemma {:induction false} AtomicSoFar(s: Shared, f: EventFile, steps: seq<Step>, n: nat)
    requires IsRun(s, steps) && Quiet(s) && s.file == Numbered(f) && s.made == NextId(f) && Apart(steps) && n <= |steps|
    ensures At(s, steps, n).file == Numbered(AtomicAt(f, steps, n))
    ensures At(s, steps, n).made == NextId(AtomicAt(f, steps, n))
    decreases n
  {
    hide At, IsRun, Quiet, Apart, Numbered, Appended, Marked, MarkLine, Has, Window, NextId;
    if n == 0 {
      AtStart(s, steps);
    } else {
      AtNext(s, steps, n - 1);
      AtomicSoFar(s, f, steps, n - 1);
      match steps[n - 1] {
        case Append(_, trigger) => AppendIsAppended(AtomicAt(f, steps, n - 1), trigger);
        case Write(_, id, status) =>
          var i := WriteHasWindow(s, steps, n - 1);
          WindowIsStill(steps, i, n - 1);
          Unchanged(s, f, steps, i, n - 1);
          MarkIsMarked(AtomicAt(f, steps, n - 1), id, status);
          MarkMakesNone(AtomicAt(f, steps, n - 1), id, status);
        case _ =>
      }
    }
  }

  lemma WindowIsStill(steps: seq<Step>, i: nat, j: nat)
    requires Apart(steps) && Window(steps, i, j)
    ensures forall k :: i <= k < j ==> !Changes(steps[k])
  {
  }

  /** Updates during which the file does not change are as good as atomic: in any interleaving
      the file is the one that the ledger's appends and marks leave, in the order of the writes. */
  lemma ApartIsAtomic(s: Shared, f: EventFile, steps: seq<Step>)
    requires IsRun(s, steps) && Quiet(s) && s.file == Numbered(f) && s.made == NextId(f) && Apart(steps)
    ensures After(s, steps).file == Numbered(Atomic(f, steps))
  {
    AtomicSoFar(s, f, steps, |steps|);
  }

  /** One invocation at a time keeps its updates apart. */
  lemma OneTaskIsApart(steps: seq<Step>, t: nat)
    requires forall k :: 0 <= k < |steps| ==> steps[k].task == t
    ensures Apart(steps)
  {
  }
}
