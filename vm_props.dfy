// Invariants of the executor's qubit bookkeeping: every mapped physical
// qubit is marked used and no physical qubit backs two virtual slots.
// `qalloc` picks a physical id outside the used set and `qfree` clears a
// slot together with its id, so every instruction keeps both facts.

module VmProps {
  import opened Wrappers
  import opened Memory
  import opened Vm
  import opened FreshIds

  /** Slot `j` of application `a` is mapped to a physical qubit. */
  predicate MappedAt(m: Machine, a: int, j: int)
  {
    a in m.unitModules && 0 <= j < |m.unitModules[a]| && m.unitModules[a][j].Some?
  }

  /** Every mapped physical qubit is in the used set. */
  ghost predicate MappedAreUsed(m: Machine)
  {
    forall a, j :: MappedAt(m, a, j) ==> m.unitModules[a][j].value in m.usedPhysical
  }

  /** No physical qubit is mapped from two slots. */
  ghost predicate MappingInjective(m: Machine)
  {
    forall a, j, b, k :: MappedAt(m, a, j) && MappedAt(m, b, k) && m.unitModules[a][j] == m.unitModules[b][k] ==>
      a == b && j == k
  }

  ghost predicate QubitsConsistent(m: Machine)
  {
    MappedAreUsed(m) && MappingInjective(m)
  }

  /** A fresh executor maps nothing. */
  lemma NewMachineConsistent(hasNetworkStack: bool)
    ensures QubitsConsistent(NewMachine(hasNetworkStack))
  {
  }

  /**
   * Mapping a free slot to an id outside the used set and marking it used
   * keeps the bookkeeping consistent.
   */
  lemma {:induction false} MapFreshKeeps(m: Machine, app: int, j: nat, p: int)
    requires QubitsConsistent(m)
    requires app in m.unitModules && j < |m.unitModules[app]| && m.unitModules[app][j].None?
    requires p !in m.usedPhysical
    ensures QubitsConsistent(m.(unitModules := m.unitModules[app := m.unitModules[app][j := Some(p)]],
                                usedPhysical := m.usedPhysical + {p}))
  {
    var m' := m.(unitModules := m.unitModules[app := m.unitModules[app][j := Some(p)]],
                 usedPhysical := m.usedPhysical + {p});
    forall a, i | MappedAt(m', a, i) ensures m'.unitModules[a][i].value in m'.usedPhysical {
      if !(a == app && i == j) {
        assert MappedAt(m, a, i);
      }
    }
    forall a, i, b, k | MappedAt(m', a, i) && MappedAt(m', b, k) && m'.unitModules[a][i] == m'.unitModules[b][k]
      ensures a == b && i == k
    {
      var newA := a == app && i == j;
      var newB := b == app && k == j;
      if !newA && !newB {
        assert MappedAt(m, a, i) && MappedAt(m, b, k);
      } else if newA && !newB {
        assert MappedAt(m, b, k);
      } else if !newA && newB {
        assert MappedAt(m, a, i);
      }
    }
  }

  /** `qalloc` without a given physical id keeps the bookkeeping consistent. */
  lemma AllocateKeeps(m: Machine, sid: int, va: int)
    requires QubitsConsistent(m)
    requires AllocatePhysical(m, sid, va, None).Ok?
    ensures QubitsConsistent(AllocatePhysical(m, sid, va, None).value)
  {
    var app := AppOf(m, sid).value;
    var um := m.unitModules[app];
    var j := PyIndex(|um|, va).value;
    MapFreshKeeps(m, app, j, SmallestUnused(m.usedPhysical));
  }

  /**
   * Clearing a mapped slot keeps the bookkeeping consistent, whether or
   * not its id is then also removed from the used set.
   */
  lemma {:induction false} UnmapKeeps(m: Machine, app: int, j: nat)
    requires QubitsConsistent(m)
    requires MappedAt(m, app, j)
    ensures var m1 := m.(unitModules := m.unitModules[app := m.unitModules[app][j := None]]);
      QubitsConsistent(m1) && QubitsConsistent(m1.(usedPhysical := m.usedPhysical - {m.unitModules[app][j].value}))
  {
    var p := m.unitModules[app][j].value;
    var m1 := m.(unitModules := m.unitModules[app := m.unitModules[app][j := None]]);
    var m2 := m1.(usedPhysical := m.usedPhysical - {p});
    forall a, i | MappedAt(m1, a, i) ensures MappedAt(m, a, i) && m1.unitModules[a][i] == m.unitModules[a][i] {
    }
    forall a, i | MappedAt(m2, a, i) ensures m2.unitModules[a][i].value in m2.usedPhysical {
      assert MappedAt(m, a, i);
      if m.unitModules[a][i].value == p {
        assert false;
      }
    }
  }

  /** `_free_physical_qubit` keeps the bookkeeping consistent, on success and on the late KeyError. */
  lemma FreeKeeps(m: Machine, sid: int, va: int)
    requires QubitsConsistent(m)
    ensures QubitsConsistent(FreePhysical(m, sid, va).m)
  {
    var r := UnitModuleOf(m, sid);
    if r.Ok? {
      var app := AppOf(m, sid).value;
      var j := PyIndex(|r.value|, va);
      if j.Some? && r.value[j.value].Some? {
        UnmapKeeps(m, app, j.value);
      }
    }
  }

  /** Under the invariant a mapped slot can always be freed: the late KeyError cannot happen. */
  lemma FreeMappedSucceeds(m: Machine, sid: int, va: int)
    requires QubitsConsistent(m)
    requires UnitModuleOf(m, sid).Ok? && Occupied(m, sid, va)
    ensures FreePhysical(m, sid, va).Next?
  {
    var app := AppOf(m, sid).value;
    assert MappedAt(m, app, PyIndex(|m.unitModules[app]|, va).value);
  }

  /** The handler of any non-branch instruction keeps the bookkeeping consistent. */
  lemma HandleKeeps(cfg: Config, m: Machine, sid: int, v: VmInstr)
    requires !v.IsBranch()
    requires QubitsConsistent(m)
    ensures var o := Handle(cfg, m, sid, v); o.Blocked? || QubitsConsistent(o.m)
  {
    if v.VQAlloc? {
      if QAllocStep(m, sid, v.reg).Ok? {
        AllocateKeeps(m, sid, ValueOf(m, sid, v.reg));
      }
    } else if v.VQFree? {
      if HoldsValue(m, sid, v.reg) {
        FreeKeeps(m, sid, ValueOf(m, sid, v.reg));
      }
    } else {
      var o := Handle(cfg, m, sid, v);
      if !o.Blocked? {
        SameQubitsKeep(m, o.m);
      }
    }
  }

  lemma SameQubitsKeep(m: Machine, m': Machine)
    requires QubitsConsistent(m) && SameQubits(m, m')
    ensures QubitsConsistent(m')
  {
    assert forall a, j :: MappedAt(m', a, j) == MappedAt(m, a, j);
  }

  /** Every instruction keeps the bookkeeping consistent. */
  lemma StepKeeps(cfg: Config, m: Machine, sid: int, v: VmInstr)
    requires QubitsConsistent(m)
    ensures var o := Step(cfg, m, sid, v); o.Blocked? || QubitsConsistent(o.m)
  {
    if !v.IsBranch() {
      HandleKeeps(cfg, m, sid, v);
    }
  }
}
