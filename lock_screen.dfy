/** The pattern-progress navigator: a list of unlock patterns, one
    completion flag per pattern and the position being shown, moved by the
    Next, Previous and Mark-as-Complete buttons. The drawing is reduced to
    what it shows: the pattern's position, its line segments and the
    completion counts. */
module LockScreen {
  import opened Wrappers
  import opened Seqs

  /** `completed.index(False)`, or 0 when every pattern is complete. */
  function FirstIncomplete(completed: seq<bool>): (r: nat)
    ensures |completed| > 0 ==> r < |completed|
    ensures false in completed ==> !completed[r] && forall k :: 0 <= k < r ==> completed[k]
    ensures false !in completed ==> r == 0
  {
    match IndexOf(completed, false, 0)
    case Some(i) => i
    case None => 0
  }

  /** One drawn line between consecutive nodes, green when the pattern is
      complete and blue otherwise. */
  datatype Line = Line(from: int, to: int, green: bool)

  /** What `draw_pattern(index)` puts on screen: "Pattern n of total",
      the red first node, the lines, and the completion counts; the
      all-complete message shows exactly when nothing is incomplete. */
  datatype Frame = Frame(
    number: nat, total: nat, first: int, lines: seq<Line>,
    numCompleted: nat, numIncomplete: nat, allComplete: bool, currentComplete: bool)

  /** The lines of a pattern: one per consecutive pair of nodes. */
  method PatternLines(pattern: seq<int>, green: bool) returns (lines: seq<Line>)
    ensures |pattern| > 0 ==> |lines| == |pattern| - 1
    ensures |pattern| == 0 ==> lines == []
    ensures forall i :: 0 <= i < |lines| ==> lines[i] == Line(pattern[i], pattern[i + 1], green)
  {
    lines := [];
    var i := 0;
    while i < |pattern| - 1
      invariant 0 <= i <= if |pattern| > 0 then |pattern| - 1 else 0
      invariant |lines| == i
      invariant forall k :: 0 <= k < i ==> lines[k] == Line(pattern[k], pattern[k + 1], green)
    {
      lines := lines + [Line(pattern[i], pattern[i + 1], green)];
      i := i + 1;
    }
  }

  class PatternProgress {
    const sequences: seq<seq<int>>
    var completed: seq<bool>
    var current: nat

    /** There is a flag per pattern, at least one pattern, and the
        position is one of them. */
    ghost predicate Valid()
      reads this
    {
      |completed| == |sequences| && 0 < |sequences| && current < |sequences|
    }

    /** Start at the first incomplete pattern, or at the first pattern when
        all are complete. */
    constructor (patterns: seq<seq<int>>, flags: seq<bool>)
      requires |patterns| == |flags| && 0 < |flags|
      ensures Valid()
      ensures sequences == patterns && completed == flags
      ensures current == FirstIncomplete(flags)
    {
      sequences := patterns;
      completed := flags;
      current := FirstIncomplete(flags);
    }

    /** `next_pattern`: one step forward unless already at the last. */
    method NextPattern()
      requires Valid()
      modifies this
      ensures Valid()
      ensures current == if old(current) < |sequences| - 1 then old(current) + 1 else old(current)
      ensures completed == old(completed)
    {
      if current < |sequences| - 1 {
        current := current + 1;
      }
    }

    /** `prev_pattern`: one step back unless already at the first. */
    method PrevPattern()
      requires Valid()
      modifies this
      ensures Valid()
      ensures current == if old(current) > 0 then old(current) - 1 else old(current)
      ensures completed == old(completed)
    {
      if current > 0 {
        current := current - 1;
      }
    }

    /** `mark_complete`: set the current flag, then move to the next
        incomplete pattern after it, staying put when there is none. The
        count of completed patterns grows by one exactly when the flag was
        not already set. */
    method MarkComplete()
      requires Valid()
      modifies this
      ensures Valid()
      ensures completed == old(completed)[old(current) := true]
      ensures current == match IndexOf(completed, false, old(current) + 1)
        case Some(j) => j
        case None => old(current)
      ensures old(current) <= current
      ensures Count(completed, true) == Count(old(completed), true) + (if old(completed)[old(current)] then 0 else 1)
    {
      CountUpdate(completed, current, true);
      completed := completed[current := true];
      var next := IndexOf(completed, false, current + 1);
      if next.Some? {
        current := next.value;
      }
    }

    /** `draw_pattern(index)`; None where `seq[0]` raises IndexError on an
        empty pattern. */
    method DrawPattern(index: nat) returns (f: Option<Frame>)
      requires Valid() && index < |sequences|
      ensures sequences[index] == [] ==> f.None?
      ensures sequences[index] != [] ==> (f.Some? &&
        var fr := f.value;
        && fr.number == index + 1 && fr.total == |completed|
        && fr.first == sequences[index][0]
        && |fr.lines| == |sequences[index]| - 1
        && (forall i :: 0 <= i < |fr.lines| ==>
              fr.lines[i] == Line(sequences[index][i], sequences[index][i + 1], completed[index]))
        && fr.numCompleted == Count(completed, true) && fr.numIncomplete == Count(completed, false)
        && fr.numCompleted + fr.numIncomplete == fr.total
        && (fr.allComplete <==> forall k :: 0 <= k < |completed| ==> completed[k])
        && fr.currentComplete == completed[index])
    {
      var pattern := sequences[index];
      if pattern == [] {
        return None;
      }
      var lines := PatternLines(pattern, completed[index]);
      var total := |completed|;
      var numCompleted := Count(completed, true);
      var numIncomplete := Count(completed, false);
      CountTrueFalse(completed);
      NoneIncomplete(completed);
      f := Some(Frame(index + 1, total, pattern[0], lines, numCompleted, numIncomplete,
                      numIncomplete == 0, completed[index]));
    }
  }

  /** Nothing is counted incomplete exactly when every flag is set. */
  lemma {:induction false} NoneIncomplete(flags: seq<bool>)
    ensures Count(flags, false) == 0 <==> forall k :: 0 <= k < |flags| ==> flags[k]
  {
    if flags != [] {
      var n := |flags| - 1;
      NoneIncomplete(flags[..n]);
      assert forall k :: 0 <= k < n ==> flags[..n][k] == flags[k];
    }
  }
}
