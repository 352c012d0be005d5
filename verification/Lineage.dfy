/** A per-PID flag that signals switch on and off and that a fork hands to the child.

    Both kernel flags follow this scheme: a Critical mark under propagate-on-fork, and
    the watch scope under every mode. */
module Lineage {

  type Pid = nat

  datatype Signal = On(pid: Pid) | Off(pid: Pid) | Spawn(parent: Pid, child: Pid) | Skip

  /** The set of flagged PIDs after one more signal. */
  function Apply(flagged: set<Pid>, g: Signal): set<Pid> {
    match g
    case On(p) => flagged + {p}
    case Off(p) => flagged - {p}
    case Spawn(a, c) => if a in flagged then flagged + {c} else flagged
    case Skip => flagged
  }

  /** The flagged PIDs after the first `n` signals. */
  function Flagged(sigs: seq<Signal>, n: nat): set<Pid>
    requires n <= |sigs|
  {
    if n == 0 then {} else Apply(Flagged(sigs, n - 1), sigs[n - 1])
  }

  /** No signal in [lo, hi) takes the flag from `p`. */
  ghost predicate Quiet(sigs: seq<Signal>, p: Pid, lo: nat, hi: nat)
    requires hi <= |sigs|
  {
    forall i :: lo <= i < hi ==> sigs[i] != Off(p)
  }

  /** `ks` lists the signals before `n` by which the flag travelled to `p`: the one that
      put it on the first process, then one fork per generation. Each process keeps the
      flag until it forks the next, the last one until `n`; afterwards the earlier ones
      may lose it or exit. */
  ghost predicate Chain(sigs: seq<Signal>, ks: seq<nat>, p: Pid, n: nat)
    requires n <= |sigs|
    decreases |ks|
  {
    && ks != []
    && var m := |ks| - 1;
    && ks[m] < n
    && Quiet(sigs, p, ks[m] + 1, n)
    && if m == 0 then sigs[ks[0]] == On(p)
       else sigs[ks[m]].Spawn? && sigs[ks[m]].child == p && Chain(sigs, ks[..m], sigs[ks[m]].parent, ks[m])
  }

  ghost predicate Inherits(sigs: seq<Signal>, p: Pid, n: nat)
    requires n <= |sigs|
  {
    exists ks: seq<nat> :: Chain(sigs, ks, p, n)
  }

  /** A PID carries the flag exactly when some chain leads to it. */
  lemma {:induction false} FlaggedIffChain(sigs: seq<Signal>, p: Pid, n: nat)
    requires n <= |sigs|
    ensures p in Flagged(sigs, n) <==> Inherits(sigs, p, n)
  {
    if p in Flagged(sigs, n) {
      var ks := ChainOf(sigs, p, n);
    } else if Inherits(sigs, p, n) {
      var ks: seq<nat> :| Chain(sigs, ks, p, n);
      ChainFlags(sigs, ks, p, n);
    }
  }

  lemma {:induction false} ChainOf(sigs: seq<Signal>, p: Pid, n: nat) returns (ks: seq<nat>)
    requires n <= |sigs| && p in Flagged(sigs, n)
    ensures Chain(sigs, ks, p, n)
    decreases n
  {
    var k := n - 1;
    if sigs[k] == On(p) {
      ks := [k];
    } else if p in Flagged(sigs, k) {
      ks := ChainOf(sigs, p, k);
    } else {
      var up := ChainOf(sigs, sigs[k].parent, k);
      ks := up + [k];
      assert ks[..|ks| - 1] == up;
    }
  }

  lemma {:induction false} ChainFlags(sigs: seq<Signal>, ks: seq<nat>, p: Pid, n: nat)
    requires n <= |sigs| && Chain(sigs, ks, p, n)
    ensures p in Flagged(sigs, n)
    decreases n
  {
    var k := ks[|ks| - 1];
    if k < n - 1 {
      ChainFlags(sigs, ks, p, n - 1);
    } else if |ks| > 1 {
      ChainFlags(sigs, ks[..|ks| - 1], sigs[k].parent, k);
    }
  }
}
