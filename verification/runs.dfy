/**
 * A list of workers run one after the other through a shared state (a call
 * log): each worker starts from the state the one before it left, and the
 * whole run stops at the first worker that fails, as a Python loop does when
 * a call in its body raises.
 */
module Runs {
  import opened Results

  /** The first `k` workers ran in turn: worker `i` took the state from `marks[i]` to `marks[i + 1]` and gave `outs[i]`. */
  ghost predicate Ran<W, S(!new), O(!new), E>(step: (W, S) -> Result<(O, S), E>, ws: seq<W>, k: nat, outs: seq<O>, marks: seq<S>) {
    && k <= |ws| && |outs| == k && |marks| == k + 1
    && forall i :: 0 <= i < k ==> step(ws[i], marks[i]) == Success((outs[i], marks[i + 1]))
  }

  /** Every worker ran, from state `from` to state `to`, giving `outs` in worker order. */
  ghost predicate RanAll<W, S(!new), O(!new), E>(step: (W, S) -> Result<(O, S), E>, ws: seq<W>, outs: seq<O>, from: S, to: S) {
    exists marks :: Ran(step, ws, |ws|, outs, marks) && marks[0] == from && marks[|ws|] == to
  }

  /** The workers before some worker `k` ran from state `from` on, and worker `k` failed with `e`. */
  ghost predicate Stopped<W, S(!new), O(!new), E>(step: (W, S) -> Result<(O, S), E>, ws: seq<W>, from: S, e: E) {
    exists k: nat, outs: seq<O>, marks :: StoppedAt(step, ws, from, e, k, outs, marks)
  }

  /** The stop of `Stopped` with its witnesses spelled out. */
  ghost predicate StoppedAt<W, S(!new), O(!new), E>(step: (W, S) -> Result<(O, S), E>, ws: seq<W>, from: S, e: E,
                                        k: nat, outs: seq<O>, marks: seq<S>) {
    && k < |ws| && Ran(step, ws, k, outs, marks) && marks[0] == from
    && step(ws[k], marks[k]) == Failure(e)
  }

  /** A first run followed by runs of the remaining workers is a run of one worker more. */
  lemma RanCons<W, S(!new), O(!new), E>(step: (W, S) -> Result<(O, S), E>, ws: seq<W>, k: nat, from: S,
                            first: O, outs: seq<O>, marks: seq<S>)
    requires |ws| > 0 && Ran(step, ws[1..], k, outs, marks)
    requires step(ws[0], from) == Success((first, marks[0]))
    ensures Ran(step, ws, k + 1, [first] + outs, [from] + marks)
  {
    var outs', marks' := [first] + outs, [from] + marks;
    forall i | 0 <= i < k + 1 ensures step(ws[i], marks'[i]) == Success((outs'[i], marks'[i + 1])) {
      if i > 0 {
        assert ws[i] == ws[1..][i - 1];
      }
    }
  }

  /** No worker: the state is left as it was. */
  lemma RanNone<W, S(!new), O(!new), E>(step: (W, S) -> Result<(O, S), E>, from: S)
    ensures RanAll(step, [], [], from, from)
  {
    assert Ran(step, [], 0, [], [from]);
  }

  /** After a first successful run, a complete run of the remaining workers makes a complete run of all of them. */
  lemma RanAllCons<W, S(!new), O(!new), E>(step: (W, S) -> Result<(O, S), E>, ws: seq<W>, from: S, first: O, mid: S,
                               outs: seq<O>, to: S)
    requires |ws| > 0 && step(ws[0], from) == Success((first, mid))
    requires RanAll(step, ws[1..], outs, mid, to)
    ensures RanAll(step, ws, [first] + outs, from, to)
  {
    var marks :| Ran(step, ws[1..], |ws| - 1, outs, marks) && marks[0] == mid && marks[|ws| - 1] == to;
    RanCons(step, ws, |ws| - 1, from, first, outs, marks);
    assert ([from] + marks)[|ws|] == to;
  }

  /** A first worker that fails stops the run there. */
  lemma StoppedFirst<W, S(!new), O(!new), E>(step: (W, S) -> Result<(O, S), E>, ws: seq<W>, from: S, e: E)
    requires |ws| > 0 && step(ws[0], from) == Failure(e)
    ensures Stopped(step, ws, from, e)
  {
    assert StoppedAt(step, ws, from, e, 0, [], [from]);
  }

  /** After a first successful run, a stop among the remaining workers is a stop of the whole run, one worker further on. */
  lemma StoppedCons<W, S(!new), O(!new), E>(step: (W, S) -> Result<(O, S), E>, ws: seq<W>, from: S, first: O, mid: S, e: E)
    requires |ws| > 0 && step(ws[0], from) == Success((first, mid))
    requires Stopped(step, ws[1..], mid, e)
    ensures Stopped(step, ws, from, e)
  {
    var k: nat, outs: seq<O>, marks :| StoppedAt(step, ws[1..], mid, e, k, outs, marks);
    RanCons(step, ws, k, from, first, outs, marks);
    assert ws[k + 1] == ws[1..][k] && ([from] + marks)[k + 1] == marks[k];
    assert StoppedAt(step, ws, from, e, k + 1, [first] + outs, [from] + marks);
  }

  /**
   * A run is determined by where it starts: two runs of the same workers from
   * the same state agree on every output and on every state in between.
   */
  lemma {:induction false} RanDetermined<W, S(!new), O(!new), E>(step: (W, S) -> Result<(O, S), E>, ws: seq<W>, k: nat,
                                                      outs1: seq<O>, marks1: seq<S>, outs2: seq<O>, marks2: seq<S>)
    requires Ran(step, ws, k, outs1, marks1) && Ran(step, ws, k, outs2, marks2) && marks1[0] == marks2[0]
    ensures outs1 == outs2 && marks1 == marks2
    decreases k
  {
    if k > 0 {
      RanDetermined(step, ws, k - 1, outs1[..k - 1], marks1[..k], outs2[..k - 1], marks2[..k]);
      assert step(ws[k - 1], marks1[k - 1]) == Success((outs1[k - 1], marks1[k]));
      assert step(ws[k - 1], marks2[k - 1]) == Success((outs2[k - 1], marks2[k]));
      assert outs1 == outs1[..k - 1] + [outs1[k - 1]] && outs2 == outs2[..k - 1] + [outs2[k - 1]];
      assert marks1 == marks1[..k] + [marks1[k]] && marks2 == marks2[..k] + [marks2[k]];
    }
  }

  /** From one state the workers either all run, with one outcome, or stop, with one error; never both. */
  lemma RunOutcomeUnique<W, S(!new), O(!new), E>(step: (W, S) -> Result<(O, S), E>, ws: seq<W>, from: S)
    ensures forall outs1, to1, outs2, to2 :: RanAll(step, ws, outs1, from, to1) && RanAll(step, ws, outs2, from, to2) ==>
      outs1 == outs2 && to1 == to2
    ensures forall outs, to, e :: RanAll(step, ws, outs, from, to) ==> !Stopped(step, ws, from, e)
    ensures forall e1, e2 :: Stopped(step, ws, from, e1) && Stopped(step, ws, from, e2) ==> e1 == e2
  {
    forall outs1, to1, outs2, to2 | RanAll(step, ws, outs1, from, to1) && RanAll(step, ws, outs2, from, to2)
      ensures outs1 == outs2 && to1 == to2
    {
      var marks1 :| Ran(step, ws, |ws|, outs1, marks1) && marks1[0] == from && marks1[|ws|] == to1;
      var marks2 :| Ran(step, ws, |ws|, outs2, marks2) && marks2[0] == from && marks2[|ws|] == to2;
      RanDetermined(step, ws, |ws|, outs1, marks1, outs2, marks2);
    }
    forall outs, to, e | RanAll(step, ws, outs, from, to) ensures !Stopped(step, ws, from, e) {
      if Stopped(step, ws, from, e) {
        var marks :| Ran(step, ws, |ws|, outs, marks) && marks[0] == from && marks[|ws|] == to;
        var k: nat, outs', marks' :| StoppedAt(step, ws, from, e, k, outs', marks');
        RanReachesStep(step, ws, |ws|, outs, marks, k, outs', marks');
        assert false;
      }
    }
    forall e1, e2 | Stopped(step, ws, from, e1) && Stopped(step, ws, from, e2) ensures e1 == e2 {
      var k1: nat, outs1: seq<O>, marks1 :| StoppedAt(step, ws, from, e1, k1, outs1, marks1);
      var k2: nat, outs2: seq<O>, marks2 :| StoppedAt(step, ws, from, e2, k2, outs2, marks2);
      if k1 < k2 {
        RanReachesStep(step, ws, k2, outs2, marks2, k1, outs1, marks1);
        assert false;
      } else if k2 < k1 {
        RanReachesStep(step, ws, k1, outs1, marks1, k2, outs2, marks2);
        assert false;
      } else {
        RanDetermined(step, ws, k1, outs1, marks1, outs2, marks2);
      }
    }
  }

  /** A shorter run from the same state reaches the state the longer run had there, so the next worker does what it did in the longer run. */
  lemma RanReachesStep<W, S(!new), O(!new), E>(step: (W, S) -> Result<(O, S), E>, ws: seq<W>, k: nat, outs: seq<O>, marks: seq<S>,
                                               j: nat, outs': seq<O>, marks': seq<S>)
    requires Ran(step, ws, k, outs, marks) && j < k && Ran(step, ws, j, outs', marks') && marks'[0] == marks[0]
    ensures step(ws[j], marks'[j]) == Success((outs[j], marks[j + 1]))
  {
    RanPrefix(step, ws, k, outs, marks, j);
    RanDetermined(step, ws, j, outs[..j], marks[..j + 1], outs', marks');
    assert marks'[j] == marks[..j + 1][j];
  }

  /** The first `j` workers of a run ran too. */
  lemma RanPrefix<W, S(!new), O(!new), E>(step: (W, S) -> Result<(O, S), E>, ws: seq<W>, k: nat, outs: seq<O>, marks: seq<S>, j: nat)
    requires Ran(step, ws, k, outs, marks) && j <= k
    ensures Ran(step, ws, j, outs[..j], marks[..j + 1])
  {
    forall i | 0 <= i < j ensures step(ws[i], marks[..j + 1][i]) == Success((outs[..j][i], marks[..j + 1][i + 1])) {
      assert step(ws[i], marks[i]) == Success((outs[i], marks[i + 1]));
    }
  }
}
