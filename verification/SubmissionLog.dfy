/** The submissions of a run, numbered from 0, and what each of them draws. */
module SubmissionLog {
  import opened Arith
  import opened Workload

  /** One submission: the task or group, what the generators gave, and whether the device took it. */
  datatype Entry = Entry(id: nat, choice: Choice, accept: bool)

  /** The number of the latest submission of `id`, or -1. */
  function Last(log: seq<Entry>, id: nat): (i: int)
    ensures -1 <= i < |log|
    ensures i >= 0 ==> log[i].id == id
    ensures forall j :: i < j < |log| ==> log[j].id != id
  {
    if log == [] then -1
    else
      var m := |log| - 1;
      assert forall j :: 0 <= j < m ==> log[..m][j] == log[j];
      if log[m].id == id then m else Last(log[..m], id)
  }

  lemma {:induction false} LastAppend(log: seq<Entry>, e: Entry, id: nat)
    ensures Last(log + [e], id) == if e.id == id then |log| else Last(log, id)
  {
    assert (log + [e])[..|log|] == log;
  }

  /** What submission `n` draws: in sequential mode the offset is `n`, wrapped, whoever submits. */
  function OffsetOf(mode: Mode, size: nat, wrap: nat, n: nat, choice: Choice): nat
    requires mode.Random? ==> 1 <= size
  {
    match mode
    case Sequential => Nth(n, wrap)
    case Random => choice.draw % size
    case Zipf => choice.zipf
  }

  /** The cursor after `n` submissions. */
  function CursorOf(mode: Mode, wrap: nat, n: nat): nat {
    if mode.Sequential? then Nth(n, wrap) else 0
  }

  lemma {:induction false} Draws(mode: Mode, size: nat, wrap: nat, n: nat, choice: Choice)
    requires mode.Random? ==> 1 <= size
    ensures PickOffset(mode, CursorOf(mode, wrap, n), size, choice) == OffsetOf(mode, size, wrap, n, choice)
    ensures NextCursor(mode, CursorOf(mode, wrap, n), wrap) == CursorOf(mode, wrap, n + 1)
  {
    CursorIsNth(n, wrap);
    CursorIsNth(n + 1, wrap);
  }
}
