/**
 * The bounded undo/redo history of `vectra-engine/src/lib.rs` (HistoryManager):
 * a stack of opaque document snapshots and a cursor into it.
 *
 * `State` is the value-level view of the manager (its stack and cursor) and the
 * functions over it specify what each operation does; the class `HistoryManager`
 * updates its fields in place, as the source does, and each method is proved to
 * move its view exactly as the matching function says.
 */
module History {
  import opened Wrappers

  /** The capacity the source fixes at construction (`max_history: 50`). */
  const MaxHistory: nat := 50

  datatype State = State(stack: seq<string>, index: nat) {

    /** The manager's invariant: never empty, the cursor in range, the capacity respected. */
    ghost predicate Valid() {
      1 <= |stack| <= MaxHistory && index < |stack|
    }

    /** The snapshot under the cursor. */
    function Current(): string
      requires Valid()
    {
      stack[index]
    }

    predicate CanUndo() {
      index > 0
    }

    predicate CanRedo() {
      index < |stack| - 1
    }
  }

  /** A new history holds only the initial snapshot. */
  function Initial(initial: string): (r: State)
    ensures r.Valid() && r.Current() == initial
    ensures !r.CanUndo() && !r.CanRedo()
  {
    State([initial], 0)
  }

  /**
   * Pushing drops the redo branch (everything after the cursor), appends the new
   * snapshot and moves the cursor onto it; when the stack then exceeds the
   * capacity its oldest entry is evicted.
   */
  function AfterPush(st: State, s: string): (r: State)
    requires st.Valid()
    ensures r.Valid()
    ensures r.Current() == s && r.index == |r.stack| - 1 && !r.CanRedo()
    // no eviction: the entries up to the old cursor keep their places
    ensures st.index + 1 < MaxHistory ==>
              |r.stack| == st.index + 2 &&
              forall i :: 0 <= i <= st.index ==> r.stack[i] == st.stack[i]
    // eviction: the oldest entry is gone and the others move down by one
    ensures st.index + 1 >= MaxHistory ==>
              |r.stack| == MaxHistory && r.index == st.index &&
              forall i :: 1 <= i <= st.index ==> r.stack[i - 1] == st.stack[i]
  {
    var kept := st.stack[..st.index + 1] + [s];
    if |kept| > MaxHistory then State(kept[1..], st.index) else State(kept, st.index + 1)
  }

  /** Undoing moves the cursor back one entry and yields that entry, or does nothing at the bottom. */
  function AfterUndo(st: State): (r: (State, Option<string>))
    requires st.Valid()
    ensures r.0.Valid() && r.0.stack == st.stack
    ensures r.1.Some? <==> st.CanUndo()
    ensures st.CanUndo() ==> r.0.index == st.index - 1 && r.1 == Some(r.0.Current())
    ensures !st.CanUndo() ==> r.0 == st
  {
    if st.index > 0 then
      var moved := st.(index := st.index - 1);
      (moved, Some(moved.stack[moved.index]))
    else
      (st, None)
  }

  /** Redoing moves the cursor forward one entry and yields that entry, or does nothing at the top. */
  function AfterRedo(st: State): (r: (State, Option<string>))
    requires st.Valid()
    ensures r.0.Valid() && r.0.stack == st.stack
    ensures r.1.Some? <==> st.CanRedo()
    ensures st.CanRedo() ==> r.0.index == st.index + 1 && r.1 == Some(r.0.Current())
    ensures !st.CanRedo() ==> r.0 == st
  {
    if st.index < |st.stack| - 1 then
      var moved := st.(index := st.index + 1);
      (moved, Some(moved.stack[moved.index]))
    else
      (st, None)
  }

  /** An undo followed by a redo restores the cursor and yields the snapshot it started on. */
  lemma UndoThenRedo(st: State)
    requires st.Valid() && st.CanUndo()
    ensures AfterRedo(AfterUndo(st).0) == (st, Some(st.Current()))
  {
  }

  /** A redo followed by an undo restores the cursor and yields the snapshot it started on. */
  lemma RedoThenUndo(st: State)
    requires st.Valid() && st.CanRedo()
    ensures AfterUndo(AfterRedo(st).0) == (st, Some(st.Current()))
  {
  }

  /** Right after a push, undo is always possible and returns the snapshot that was current before it. */
  lemma PushThenUndo(st: State, s: string)
    requires st.Valid()
    ensures AfterPush(st, s).CanUndo()
    ensures AfterUndo(AfterPush(st, s)).1 == Some(st.Current())
  {
  }

  /** Pushes one snapshot after another. */
  function PushAll(st: State, ss: seq<string>): (r: State)
    requires st.Valid()
    ensures r.Valid()
    decreases |ss|
  {
    if ss == [] then st else PushAll(AfterPush(st, ss[0]), ss[1..])
  }

  /** The newest `n` entries of `s` (all of them when there are fewer). */
  function Newest(s: seq<string>, n: nat): (r: seq<string>)
    ensures |r| == if |s| <= n then |s| else n
  {
    if |s| <= n then s else s[|s| - n..]
  }

  /**
   * From a history with no redo branch, a series of pushes keeps exactly the newest
   * `MaxHistory` snapshots of everything seen, with the cursor on the last one:
   * whatever was evicted is gone for good.
   */
  lemma {:induction false} PushAllKeepsNewest(st: State, ss: seq<string>)
    requires st.Valid() && !st.CanRedo()
    ensures PushAll(st, ss).stack == Newest(st.stack + ss, MaxHistory)
    ensures PushAll(st, ss).index == |PushAll(st, ss).stack| - 1
    decreases |ss|
  {
    if ss != [] {
      var next := AfterPush(st, ss[0]);
      assert next.stack == Newest(st.stack + [ss[0]], MaxHistory) by {
        if |st.stack| + 1 > MaxHistory {
          assert next.stack == st.stack[1..] + [ss[0]];
        } else {
          assert next.stack == st.stack + [ss[0]];
        }
      }
      PushAllKeepsNewest(next, ss[1..]);
      var all := st.stack + ss;
      assert next.stack + ss[1..] == Newest(st.stack + [ss[0]], MaxHistory) + ss[1..];
      assert Newest(Newest(st.stack + [ss[0]], MaxHistory) + ss[1..], MaxHistory)
          == Newest(all, MaxHistory) by {
        assert st.stack + [ss[0]] + ss[1..] == all;
        NewestOfNewest(st.stack + [ss[0]], ss[1..], MaxHistory);
      }
    }
  }

  /**
   * At capacity: 50 pushes onto a new history (51 snapshots in all) evict exactly the
   * initial snapshot, and one more push evicts the first pushed one as well.
   */
  lemma {:induction false} CapacityEviction(a: string, ss: seq<string>, extra: string)
    requires |ss| == MaxHistory
    ensures PushAll(Initial(a), ss).stack == ss
    ensures PushAll(Initial(a), ss + [extra]).stack == ss[1..] + [extra]
  {
    PushAllKeepsNewest(Initial(a), ss);
    assert ([a] + ss)[1..] == ss;
    PushAllKeepsNewest(Initial(a), ss + [extra]);
    assert ([a] + (ss + [extra]))[2..] == ss[1..] + [extra];
  }

  /** Keeping the newest `n` of a prefix and then of the whole is the same as keeping the newest `n` of the whole. */
  lemma NewestOfNewest(a: seq<string>, b: seq<string>, n: nat)
    ensures Newest(Newest(a, n) + b, n) == Newest(a + b, n)
  {
    if |a| > n {
      var w := a[|a| - n..];
      assert (w + b)[|w + b| - n..] == (a + b)[|a + b| - n..];
    }
  }

  /**
   * The branch-truncation scenario: three pushes, two undos and a push leave no
   * redo branch, and the two snapshots that could have been redone are gone.
   */
  lemma BranchTruncation(a: string, b: string, c: string, d: string, e: string)
    ensures var h0 := PushAll(Initial(a), [b, c, d]);
            var h1 := AfterUndo(AfterUndo(h0).0).0;
            var h2 := AfterPush(h1, e);
            h2.stack == [a, b, e] && h2.index == 2 && !h2.CanRedo()
  {
    var h0 := PushAll(Initial(a), [b, c, d]);
    assert h0 == State([a, b, c, d], 3) by {
      assert [b, c, d][1..] == [c, d] && [c, d][1..] == [d] && [d][1..] == [];
      assert AfterPush(Initial(a), b) == State([a, b], 1);
      assert AfterPush(State([a, b], 1), c) == State([a, b, c], 2);
      assert AfterPush(State([a, b, c], 2), d) == State([a, b, c, d], 3);
      assert PushAll(State([a, b, c, d], 3), []) == State([a, b, c, d], 3);
      assert PushAll(State([a, b, c], 2), [d]) == State([a, b, c, d], 3);
      assert PushAll(State([a, b], 1), [c, d]) == State([a, b, c, d], 3);
    }
  }

  /** The history manager object; its fields are updated in place. */
  class HistoryManager {
    var stack: seq<string>
    var currentIndex: nat
    const maxHistory: nat

    ghost predicate Valid()
      reads this
    {
      maxHistory == MaxHistory && View().Valid()
    }

    /** The manager's stack and cursor as a value. */
    function View(): State
      reads this
    {
      State(stack, currentIndex)
    }

    constructor (initial: string)
      ensures Valid() && View() == Initial(initial)
    {
      stack := [initial];
      currentIndex := 0;
      maxHistory := 50;
    }

    method PushState(state: string)
      requires Valid()
      modifies this
      ensures Valid() && View() == AfterPush(old(View()), state)
    {
      if currentIndex < |stack| - 1 {
        stack := stack[..currentIndex + 1];
      }
      stack := stack + [state];
      currentIndex := currentIndex + 1;
      if |stack| > maxHistory {
        stack := stack[1..];
        currentIndex := currentIndex - 1;
      }
    }

    method Undo() returns (r: Option<string>)
      requires Valid()
      modifies this
      ensures Valid() && (View(), r) == AfterUndo(old(View()))
    {
      if currentIndex > 0 {
        currentIndex := currentIndex - 1;
        r := Some(stack[currentIndex]);
      } else {
        r := None;
      }
    }

    method Redo() returns (r: Option<string>)
      requires Valid()
      modifies this
      ensures Valid() && (View(), r) == AfterRedo(old(View()))
    {
      if currentIndex < |stack| - 1 {
        currentIndex := currentIndex + 1;
        r := Some(stack[currentIndex]);
      } else {
        r := None;
      }
    }

    method CanUndo() returns (b: bool)
      requires Valid()
      ensures b == AfterUndo(View()).1.Some?
    {
      b := currentIndex > 0;
    }

    method CanRedo() returns (b: bool)
      requires Valid()
      ensures b == AfterRedo(View()).1.Some?
    {
      b := currentIndex < |stack| - 1;
    }
  }
}
