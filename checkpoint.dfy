/** The importer's checkpoint: a map from step keys to status strings, kept in
    memory and written back to the checkpoint file after every change. `main`
    runs each import step only when its key is not yet marked done, and marks
    it done right after the step returns, so a rerun resumes where a failed
    run stopped. */
module Checkpoint {
  import opened Sql
  import opened Rel

  type State = map<string, string>

  /** `state.get(key)`. */
  function Get(state: State, key: string): (r: Option<string>)
    ensures r.Some? <==> key in state
    ensures r.Some? ==> r.value == state[key]
  {
    if key in state then Some(state[key]) else None
  }

  /** `is_done`: `state.get(key) == "done"`; a missing key is not done. */
  predicate IsDone(state: State, key: string)
    ensures IsDone(state, key) <==> key in state && state[key] == "done"
  {
    Get(state, key) == Some("done")
  }

  /** Marking a key done makes it done and leaves every other key's value,
      and its absence, as it was. */
  lemma MarkedEffect(state: State, key: string)
    ensures IsDone(state[key := "done"], key)
    ensures forall k :: k != key ==> Get(state[key := "done"], k) == Get(state, k)
  {
  }

  /** The checkpoint store and the steps it has seen run. `saved` is the
      content of the checkpoint file; `trace` lists the import steps called,
      in order. */
  class Pipeline {
    var state: State
    var saved: State
    var trace: seq<string>

    /** `load_checkpoint`: the state starts as what the file holds. */
    constructor (loaded: State)
      ensures state == loaded && saved == loaded && trace == []
    {
      state := loaded;
      saved := loaded;
      trace := [];
    }

    /** `mark_done`: set the key to "done", then save the whole state. */
    method MarkDone(key: string)
      modifies this
      ensures state == old(state)[key := "done"]
      ensures saved == state && trace == old(trace)
    {
      state := state[key := "done"];
      saved := state;
    }

    /** A block of consecutive skip-if-done stanzas of `main`: each step whose
        key is not done is called and then marked done; a step in `fails`
        raises, which ends the run before its key is marked. */
    method RunSteps(steps: seq<string>, fails: set<string>) returns (completed: bool)
      requires saved == state
      modifies this
      ensures trace == old(trace) + Exec(old(state), steps, fails).ran
      ensures state == Exec(old(state), steps, fails).state
      ensures completed == Exec(old(state), steps, fails).completed
      ensures saved == state
    {
      var i := 0;
      while i < |steps|
        invariant i <= |steps| && saved == state
        invariant old(trace) + Exec(old(state), steps, fails).ran == trace + Exec(state, steps[i..], fails).ran
        invariant Exec(old(state), steps, fails).state == Exec(state, steps[i..], fails).state
        invariant Exec(old(state), steps, fails).completed == Exec(state, steps[i..], fails).completed
      {
        var key := steps[i];
        assert steps[i..][1..] == steps[i + 1..];
        if !IsDone(state, key) {
          trace := trace + [key];
          if key in fails {
            return false;
          }
          MarkDone(key);
        }
        i := i + 1;
      }
      return true;
    }

    /** The per-cycle stanzas of `main`: the six steps of each cycle, cycle
        after cycle, until one raises. */
    method RunCycles(cycles: seq<string>, fails: set<string>) returns (completed: bool)
      requires saved == state
      modifies this
      ensures var p := Exec(old(state), CycleSteps(cycles), fails);
        trace == old(trace) + p.ran && state == p.state && completed == p.completed
      ensures saved == state
    {
      var s0, t0 := state, trace;
      var c := 0;
      CyclesStart(s0, cycles, fails);
      completed := true;
      while c < |cycles|
        invariant c <= |cycles| && saved == state && completed
        invariant var p := Exec(s0, CycleSteps(cycles[..c]), fails);
          p.completed && trace == t0 + p.ran && state == p.state
      {
        completed := RunSteps(PerCycle(cycles[c]), fails);
        CyclesStep(s0, t0, cycles, c, fails);
        if !completed {
          return;
        }
        c := c + 1;
      }
      assert cycles[..c] == cycles;
    }

    /** The shape of `main`: a block of steps, the per-cycle stanzas, then a
        closing block; a step that raises ends the run. */
    method RunPlan(head: seq<string>, cycles: seq<string>, tail: seq<string>, fails: set<string>) returns (completed: bool)
      requires saved == state
      modifies this
      ensures var p := Exec(old(state), head + CycleSteps(cycles) + tail, fails);
        trace == old(trace) + p.ran && state == p.state && completed == p.completed
      ensures saved == state
    {
      ExecAppend3(state, head, CycleSteps(cycles), tail, fails);
      completed := RunSteps(head, fails);
      if completed {
        completed := RunCycles(cycles, fails);
        if completed {
          completed := RunSteps(tail, fails);
        }
      }
    }

    /** `main`: the reference-data steps, the six per-cycle steps for each
        cycle in order, then the 527 steps and the indexes. */
    method ImportAll(fails: set<string>) returns (completed: bool)
      requires saved == state
      modifies this
      ensures trace == old(trace) + Exec(old(state), ImportSteps(), fails).ran
      ensures state == Exec(old(state), ImportSteps(), fails).state
      ensures completed == Exec(old(state), ImportSteps(), fails).completed
      ensures saved == state
    {
      completed := RunPlan(Head, Cycles, Tail, fails);
    }
  }

  // ---------------------------------------------------------------------------
  // The step keys of `main`

  /** `CYCLES`. */
  const Cycles: seq<string> := ["04", "08", "12", "20"]

  const Head: seq<string> := ["schema", "cpi", "categories"]

  const Tail: seq<string> := ["cmtes527", "rcpts527", "expends527", "indexes"]

  function PerCycle(yy: string): (r: seq<string>)
    ensures |r| == 6
  {
    ["candidates_" + yy, "committees_" + yy, "pacs_" + yy, "pac_other_" + yy, "indivs_" + yy, "expends_" + yy]
  }

  function CycleSteps(cycles: seq<string>): (r: seq<string>)
    ensures |r| == 6 * |cycles|
  {
    if cycles == [] then [] else PerCycle(cycles[0]) + CycleSteps(cycles[1..])
  }

  lemma {:induction false} CycleStepsSplit(cycles: seq<string>, c: nat)
    requires c <= |cycles|
    ensures CycleSteps(cycles) == CycleSteps(cycles[..c]) + CycleSteps(cycles[c..])
    decreases c
  {
    if c == 0 {
      assert cycles[..0] == [] && cycles[0..] == cycles;
    } else {
      var rest := cycles[1..];
      CycleStepsSplit(rest, c - 1);
      var pre := cycles[..c];
      assert pre[0] == cycles[0] && pre[1..] == rest[..c - 1];
      assert rest[c - 1..] == cycles[c..];
      var a, x, y := PerCycle(cycles[0]), CycleSteps(rest[..c - 1]), CycleSteps(cycles[c..]);
      assert CycleSteps(cycles) == a + (x + y);
      assert CycleSteps(pre) == a + x;
      assert a + (x + y) == (a + x) + y;
    }
  }

  lemma CycleStepsSnoc(cycles: seq<string>, c: nat)
    requires c < |cycles|
    ensures CycleSteps(cycles[..c + 1]) == CycleSteps(cycles[..c]) + PerCycle(cycles[c])
  {
    var pre := cycles[..c + 1];
    CycleStepsSplit(pre, c);
    assert pre[..c] == cycles[..c];
    assert pre[c..] == [cycles[c]];
    assert CycleSteps([cycles[c]]) == PerCycle(cycles[c]) + CycleSteps([]);
  }

  lemma CyclesStart(s0: State, cycles: seq<string>, fails: set<string>)
    ensures Exec(s0, CycleSteps(cycles[..0]), fails) == Progress([], s0, true)
  {
    assert cycles[..0] == [];
  }

  /** One more cycle: the run so far extends by that cycle's six steps, and
      a cycle that raises ends the whole loop there. */
  lemma CyclesStep(s0: State, t0: seq<string>, cycles: seq<string>, c: nat, fails: set<string>)
    requires c < |cycles|
    requires Exec(s0, CycleSteps(cycles[..c]), fails).completed
    ensures var p := Exec(s0, CycleSteps(cycles[..c]), fails);
      var q := Exec(p.state, PerCycle(cycles[c]), fails);
      var r := Exec(s0, CycleSteps(cycles[..c + 1]), fails);
      r == Progress(p.ran + q.ran, q.state, q.completed)
      && t0 + p.ran + q.ran == t0 + r.ran
      && (!q.completed ==> Exec(s0, CycleSteps(cycles), fails) == r)
  {
    CycleStepsSnoc(cycles, c);
    var p := Exec(s0, CycleSteps(cycles[..c]), fails);
    var q := Exec(p.state, PerCycle(cycles[c]), fails);
    ExecAppend(s0, CycleSteps(cycles[..c]), PerCycle(cycles[c]), fails);
    assert t0 + p.ran + q.ran == t0 + (p.ran + q.ran);
    CycleStepsSplit(cycles, c + 1);
    ExecAppend(s0, CycleSteps(cycles[..c + 1]), CycleSteps(cycles[c + 1..]), fails);
  }

  /** Running three blocks in turn: each starts where the previous one
      left off, and only if it reached its end. */
  lemma ExecAppend3(s: State, a: seq<string>, b: seq<string>, c: seq<string>, fails: set<string>)
    ensures var p := Exec(s, a, fails);
      var q := Exec(p.state, b, fails);
      var r := Exec(q.state, c, fails);
      Exec(s, a + b + c, fails) ==
        if !p.completed then p
        else if !q.completed then Progress(p.ran + q.ran, q.state, false)
        else Progress(p.ran + q.ran + r.ran, r.state, r.completed)
  {
    ExecAppend(s, a, b, fails);
    ExecAppend(s, a + b, c, fails);
    var p := Exec(s, a, fails);
    var q := Exec(p.state, b, fails);
    var r := Exec(q.state, c, fails);
    assert p.ran + q.ran + r.ran == p.ran + (q.ran + r.ran);
  }

  /** Every step key `main` visits, in order. */
  function ImportSteps(): (r: seq<string>)
    ensures |r| == 31
  {
    Head + CycleSteps(Cycles) + Tail
  }

  // ---------------------------------------------------------------------------
  // What a run does

  /** The import steps called, the checkpoint state afterwards, and whether
      the run reached its end. */
  datatype Progress = Progress(ran: seq<string>, state: State, completed: bool)

  /** Running `steps` from `state`: a done key is skipped; a pending key's
      step is called, and then either raises (the run ends, the key is not
      marked) or returns (the key is marked done). */
  function Exec(state: State, steps: seq<string>, fails: set<string>): Progress
    decreases |steps|
  {
    if steps == [] then Progress([], state, true)
    else if IsDone(state, steps[0]) then Exec(state, steps[1..], fails)
    else if steps[0] in fails then Progress([steps[0]], state, false)
    else
      var p := Exec(state[steps[0] := "done"], steps[1..], fails);
      Progress([steps[0]] + p.ran, p.state, p.completed)
  }

  /** Running two blocks one after the other is running their
      concatenation; a run that stops in the first block never starts the
      second. */
  lemma {:induction false} ExecAppend(state: State, a: seq<string>, b: seq<string>, fails: set<string>)
    ensures var p := Exec(state, a, fails);
      var q := Exec(p.state, b, fails);
      Exec(state, a + b, fails) == if p.completed then Progress(p.ran + q.ran, q.state, q.completed) else p
    decreases |a|
  {
    if a == [] {
      assert a + b == b;
    } else {
      assert (a + b)[1..] == a[1..] + b;
      if IsDone(state, a[0]) {
        ExecAppend(state, a[1..], b, fails);
      } else if a[0] !in fails {
        ExecAppend(state[a[0] := "done"], a[1..], b, fails);
      }
    }
  }

  predicate OnlyPending(state: State, steps: seq<string>, ran: seq<string>) {
    forall i :: 0 <= i < |ran| ==> ran[i] in steps && !IsDone(state, ran[i])
  }

  /** Only pending steps run: no step whose key was done when the run began
      is called, and every step called is one of `steps`. */
  lemma {:induction false} ExecRunsOnlyPending(state: State, steps: seq<string>, fails: set<string>)
    ensures OnlyPending(state, steps, Exec(state, steps, fails).ran)
    decreases |steps|
  {
    if steps != [] {
      var k := steps[0];
      if IsDone(state, k) {
        ExecRunsOnlyPending(state, steps[1..], fails);
      } else if k !in fails {
        var t := state[k := "done"];
        ExecRunsOnlyPending(t, steps[1..], fails);
        MarkedEffect(state, k);
        assert forall x :: x in steps[1..] ==> x in steps;
        var q := Exec(t, steps[1..], fails);
        var p := Exec(state, steps, fails);
        assert p.ran == [k] + q.ran;
        assert forall i :: 0 < i < |p.ran| ==> p.ran[i] == q.ran[i - 1];
        assert p.ran[0] == k && k in steps;
        forall i | 0 < i < |p.ran| ensures !IsDone(state, p.ran[i]) {
          assert !IsDone(t, q.ran[i - 1]);
        }
      }
    }
  }

  /** Keys no step touched keep their value, or their absence. */
  lemma {:induction false} ExecUntouched(state: State, steps: seq<string>, fails: set<string>)
    ensures var p := Exec(state, steps, fails);
      forall k :: k !in p.ran ==> Get(p.state, k) == Get(state, k)
    decreases |steps|
  {
    if steps != [] {
      var k := steps[0];
      if IsDone(state, k) {
        ExecUntouched(state, steps[1..], fails);
      } else if k !in fails {
        var t := state[k := "done"];
        ExecUntouched(t, steps[1..], fails);
        MarkedEffect(state, k);
      }
    }
  }

  /** Only the last step called can have raised, and it did exactly when the
      run stopped early. */
  lemma {:induction false} ExecRaisesLast(state: State, steps: seq<string>, fails: set<string>)
    ensures var p := Exec(state, steps, fails);
      && (forall i :: 0 <= i < |p.ran| - 1 ==> p.ran[i] !in fails)
      && (p.completed <==> forall i :: 0 <= i < |p.ran| ==> p.ran[i] !in fails)
      && (!p.completed ==> p.ran != [] && p.ran[|p.ran| - 1] in fails)
    decreases |steps|
  {
    if steps != [] {
      var k := steps[0];
      if IsDone(state, k) {
        ExecRaisesLast(state, steps[1..], fails);
      } else if k !in fails {
        var t := state[k := "done"];
        ExecRaisesLast(t, steps[1..], fails);
        var q := Exec(t, steps[1..], fails);
        var p := Exec(state, steps, fails);
        assert p.ran == [k] + q.ran && p.completed == q.completed;
        forall i | 0 <= i < |p.ran| - 1 ensures p.ran[i] !in fails {
          if i > 0 {
            assert p.ran[i] == q.ran[i - 1];
          }
        }
        if q.completed {
          forall i | 0 <= i < |p.ran| ensures p.ran[i] !in fails {
            if i > 0 {
              assert p.ran[i] == q.ran[i - 1];
            }
          }
        } else {
          assert p.ran[|p.ran| - 1] == q.ran[|q.ran| - 1];
        }
      } else {
        var p := Exec(state, steps, fails);
        assert p == Progress([k], state, false);
        assert p.ran[0] in fails;
      }
    }
  }

  /** A called step's key is done afterwards exactly when that step
      returned: every step but a raising last one is marked. */
  lemma {:induction false} ExecMarksRan(state: State, steps: seq<string>, fails: set<string>)
    ensures var p := Exec(state, steps, fails);
      forall i :: 0 <= i < |p.ran| ==> (IsDone(p.state, p.ran[i]) <==> p.completed || i < |p.ran| - 1)
    decreases |steps|
  {
    if steps != [] {
      var k := steps[0];
      if IsDone(state, k) {
        ExecMarksRan(state, steps[1..], fails);
        assert Exec(state, steps, fails) == Exec(state, steps[1..], fails);
      } else if k !in fails {
        var t := state[k := "done"];
        ExecMarksRan(t, steps[1..], fails);
        ExecRunsOnlyPending(t, steps[1..], fails);
        ExecStaysDone(t, steps[1..], fails, k);
        ExecRaisesLast(t, steps[1..], fails);
        var q := Exec(t, steps[1..], fails);
        var p := Exec(state, steps, fails);
        assert p.ran == [k] + q.ran && p.state == q.state && p.completed == q.completed;
        forall i | 0 <= i < |p.ran|
          ensures IsDone(p.state, p.ran[i]) <==> p.completed || i < |p.ran| - 1
        {
          if i > 0 {
            assert p.ran[i] == q.ran[i - 1];
          }
        }
      } else {
        assert Exec(state, steps, fails) == Progress([k], state, false);
      }
    }
  }

  /** A run that reaches its end leaves every key of `steps` done. */
  lemma {:induction false} ExecLeavesAllDone(state: State, steps: seq<string>, fails: set<string>)
    requires Exec(state, steps, fails).completed
    ensures forall i :: 0 <= i < |steps| ==> IsDone(Exec(state, steps, fails).state, steps[i])
    decreases |steps|
  {
    if steps != [] {
      var k := steps[0];
      var t := if IsDone(state, k) then state else state[k := "done"];
      ExecLeavesAllDone(t, steps[1..], fails);
      ExecStaysDone(t, steps[1..], fails, k);
      assert forall i :: 0 < i < |steps| ==> steps[i] == steps[1..][i - 1];
    }
  }

  /** A run never unmarks a key. */
  lemma {:induction false} ExecStaysDone(state: State, steps: seq<string>, fails: set<string>, key: string)
    requires IsDone(state, key)
    ensures IsDone(Exec(state, steps, fails).state, key)
    decreases |steps|
  {
    if steps != [] {
      var k := steps[0];
      if IsDone(state, k) {
        ExecStaysDone(state, steps[1..], fails, key);
      } else if k !in fails {
        ExecStaysDone(state[k := "done"], steps[1..], fails, key);
      }
    }
  }

  /** A state in which every key is done runs nothing and is left as it is. */
  lemma {:induction false} ExecAllDone(state: State, steps: seq<string>, fails: set<string>)
    requires forall i :: 0 <= i < |steps| ==> IsDone(state, steps[i])
    ensures Exec(state, steps, fails) == Progress([], state, true)
    decreases |steps|
  {
    if steps != [] {
      assert forall i :: 0 <= i < |steps| - 1 ==> steps[1..][i] == steps[i + 1];
      ExecAllDone(state, steps[1..], fails);
    }
  }

  /** Rerunning after a run that reached its end calls no step. */
  lemma ExecRerun(state: State, steps: seq<string>, fails: set<string>)
    requires Exec(state, steps, fails).completed
    ensures var p := Exec(state, steps, fails);
      Exec(p.state, steps, fails) == Progress([], p.state, true)
  {
    ExecLeavesAllDone(state, steps, fails);
    ExecAllDone(Exec(state, steps, fails).state, steps, fails);
  }

  function Pending(state: State): string -> bool {
    (k: string) => !IsDone(state, k)
  }

  predicate Distinct(steps: seq<string>) {
    forall i, j :: 0 <= i < j < |steps| ==> steps[i] != steps[j]
  }

  lemma {:induction false} PendingAfterMark(state: State, key: string, rest: seq<string>)
    requires key !in rest
    ensures Filter(rest, Pending(state[key := "done"])) == Filter(rest, Pending(state))
    decreases |rest|
  {
    if rest != [] {
      PendingAfterMark(state, key, rest[1..]);
    }
  }

  /** When no step raises and the keys are distinct, every pending step is
      called exactly once, in the order of `steps`. */
  lemma {:induction false} ExecRunsAllPending(state: State, steps: seq<string>, fails: set<string>)
    requires Distinct(steps)
    requires forall i :: 0 <= i < |steps| ==> steps[i] !in fails
    ensures Exec(state, steps, fails).completed
    ensures Exec(state, steps, fails).ran == Filter(steps, Pending(state))
    decreases |steps|
  {
    if steps != [] {
      var k := steps[0];
      var rest := steps[1..];
      assert forall i, j :: 0 <= i < j < |rest| ==> rest[i] == steps[i + 1] && rest[j] == steps[j + 1];
      assert forall i :: 0 <= i < |rest| ==> rest[i] == steps[i + 1];
      if IsDone(state, k) {
        ExecRunsAllPending(state, rest, fails);
      } else {
        ExecRunsAllPending(state[k := "done"], rest, fails);
        assert k !in rest;
        PendingAfterMark(state, k, rest);
      }
    }
  }

  /** The last two characters of a key: the cycle suffix of a per-cycle key. */
  function Suffix(k: string): string {
    if |k| >= 2 then k[|k| - 2..] else k
  }

  lemma {:induction false} DistinctConcat(a: seq<string>, b: seq<string>)
    requires Distinct(a) && Distinct(b)
    requires forall i, j :: 0 <= i < |a| && 0 <= j < |b| ==> a[i] != b[j]
    ensures Distinct(a + b)
  {
    forall i, j | 0 <= i < j < |a + b| ensures (a + b)[i] != (a + b)[j] {
      if j < |a| {
        assert (a + b)[i] == a[i] && (a + b)[j] == a[j];
      } else if i < |a| {
        assert (a + b)[i] == a[i] && (a + b)[j] == b[j - |a|];
      } else {
        assert (a + b)[i] == b[i - |a|] && (a + b)[j] == b[j - |a|];
      }
    }
  }

  lemma SuffixOf(name: string, yy: string)
    requires |yy| == 2
    ensures Suffix(name + yy) == yy
  {
    assert (name + yy)[|name|..] == yy;
  }

  lemma SameSuffix(n1: string, n2: string, yy: string)
    requires n1 + yy == n2 + yy
    ensures n1 == n2
  {
    assert n1 == (n1 + yy)[..|n1|];
    assert n2 == (n2 + yy)[..|n2|];
  }

  /** The six keys of one cycle are distinct and end in that cycle's code. */
  lemma PerCycleKeys(yy: string)
    requires |yy| == 2
    ensures Distinct(PerCycle(yy))
    ensures forall i :: 0 <= i < 6 ==> Suffix(PerCycle(yy)[i]) == yy
  {
    var names := ["candidates_", "committees_", "pacs_", "pac_other_", "indivs_", "expends_"];
    assert Distinct(names);
    forall i | 0 <= i < 6 ensures PerCycle(yy)[i] == names[i] + yy && Suffix(PerCycle(yy)[i]) == yy {
      SuffixOf(names[i], yy);
    }
    forall i, j | 0 <= i < j < 6 ensures PerCycle(yy)[i] != PerCycle(yy)[j] {
      if PerCycle(yy)[i] == PerCycle(yy)[j] {
        SameSuffix(names[i], names[j], yy);
      }
    }
  }

  /** The per-cycle keys of distinct two-character cycles are distinct, and
      each ends in one of the cycles. */
  lemma {:induction false} CycleStepsKeys(cs: seq<string>)
    requires Distinct(cs) && forall i :: 0 <= i < |cs| ==> |cs[i]| == 2
    ensures Distinct(CycleSteps(cs))
    ensures forall i :: 0 <= i < |CycleSteps(cs)| ==> Suffix(CycleSteps(cs)[i]) in cs
    decreases |cs|
  {
    if cs != [] {
      var rest := cs[1..];
      assert forall i :: 0 <= i < |rest| ==> rest[i] == cs[i + 1];
      CycleStepsKeys(rest);
      PerCycleKeys(cs[0]);
      var a, b := PerCycle(cs[0]), CycleSteps(rest);
      assert cs[0] !in rest;
      DistinctConcat(a, b);
      forall i | 0 <= i < |a + b| ensures Suffix((a + b)[i]) in cs {
        if i >= |a| {
          assert (a + b)[i] == b[i - |a|];
        }
      }
    }
  }

  /** The reference-data and 527 keys are distinct, none ends in a cycle
      code, and the two blocks share no key. */
  lemma FixedKeys()
    ensures Distinct(Head) && Distinct(Tail)
    ensures forall i :: 0 <= i < |Head| ==> Suffix(Head[i]) !in Cycles
    ensures forall i :: 0 <= i < |Tail| ==> Suffix(Tail[i]) !in Cycles
    ensures forall i, j :: 0 <= i < |Head| && 0 <= j < |Tail| ==> Head[i] != Tail[j]
  {
  }

  lemma ImportStepsDistinct()
    ensures Distinct(ImportSteps())
  {
    assert Distinct(Cycles);
    CycleStepsKeys(Cycles);
    FixedKeys();
    var cs := CycleSteps(Cycles);
    DistinctConcat(Head, cs);
    forall i, j | 0 <= i < |Head + cs| && 0 <= j < |Tail| ensures (Head + cs)[i] != Tail[j] {
      if i >= |Head| {
        assert (Head + cs)[i] == cs[i - |Head|];
      } else {
        assert (Head + cs)[i] == Head[i];
      }
    }
    DistinctConcat(Head + cs, Tail);
  }

  /** `main` over a checkpoint in which every step is done calls no import
      step and changes nothing. */
  lemma MainAllDone(state: State, fails: set<string>)
    requires forall i :: 0 <= i < |ImportSteps()| ==> IsDone(state, ImportSteps()[i])
    ensures Exec(state, ImportSteps(), fails) == Progress([], state, true)
  {
    ExecAllDone(state, ImportSteps(), fails);
  }

  /** When no step raises, `main` calls each pending step exactly once, in
      order, and a second run calls none. */
  lemma MainRunsPendingOnce(state: State, fails: set<string>)
    requires forall i :: 0 <= i < |ImportSteps()| ==> ImportSteps()[i] !in fails
    ensures var p := Exec(state, ImportSteps(), fails);
      p.completed && p.ran == Filter(ImportSteps(), Pending(state))
      && Exec(p.state, ImportSteps(), fails).ran == []
  {
    ImportStepsDistinct();
    ExecRunsAllPending(state, ImportSteps(), fails);
    ExecRerun(state, ImportSteps(), fails);
  }
}
